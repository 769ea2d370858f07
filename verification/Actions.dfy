/** internal/action: what one executed step reports (action.go, and outcomeToResult of builtin.go). */
module Actions {
  import opened Prelude
  import opened TxEngine

  datatype ActionResult = ActionResult(
    success: bool,
    txHash: string,
    gasUsed: nat,
    revertReason: string,
    submitLatency: int,
    confirmLatency: int)

  const NO_RESULT := ActionResult(false, "", 0, "", 0, 0)

  function Digit(d: nat): char
    requires d < 16
  {
    if d < 10 then ('0' as int + d) as char else ('a' as int + d - 10) as char
  }

  function HexDigits(n: nat, digits: nat): (s: string)
    ensures |s| == digits
    decreases digits
  {
    if digits == 0 then "" else HexDigits(n / 16, digits - 1) + [Digit(n % 16)]
  }

  /** The text of a hash: always 0x and 64 digits, the zero hash included. */
  function Hex(hash: Hash): (s: string)
    ensures |s| == 66
  {
    "0x" + HexDigits(hash, 64)
  }

  function DigitValue(c: char): nat {
    if '0' <= c <= '9' then (c - '0') as int
    else if 'a' <= c <= 'f' then (c - 'a') as int + 10
    else 16
  }

  function HexValue(s: string): nat {
    if s == "" then 0 else 16 * HexValue(s[..|s| - 1]) + DigitValue(s[|s| - 1])
  }

  function Pow16(k: nat): (p: nat)
    ensures p > 0
  {
    if k == 0 then 1 else 16 * Pow16(k - 1)
  }

  lemma DigitsAreValues(d: nat)
    requires d < 16
    ensures DigitValue(Digit(d)) == d
  {
  }

  lemma HexValueSnoc(s: string, c: char)
    ensures HexValue(s + [c]) == 16 * HexValue(s) + DigitValue(c)
  {
    assert (s + [c])[..|s|] == s;
  }

  lemma {:induction false} HexDigitsValue(n: nat, digits: nat)
    requires n < Pow16(digits)
    ensures HexValue(HexDigits(n, digits)) == n
  {
    if digits > 0 {
      assert n / 16 < Pow16(digits - 1);
      HexDigitsValue(n / 16, digits - 1);
      DigitsAreValues(n % 16);
      HexValueSnoc(HexDigits(n / 16, digits - 1), Digit(n % 16));
    }
  }

  /** The text of a hash of 32 bytes says which hash it is. */
  lemma HexRoundTrip(hash: Hash)
    requires hash < Pow16(64)
    ensures Hex(hash)[..2] == "0x" && HexValue(Hex(hash)[2..]) == hash
  {
    HexDigitsValue(hash, 64);
    assert Hex(hash)[2..] == HexDigits(hash, 64);
  }

  function OutcomeToResult(out: Outcome, err: Option<SendError>): ActionResult {
    var res := NO_RESULT.(
      txHash := Hex(out.hash), gasUsed := out.gasUsed,
      submitLatency := out.submitLatency, confirmLatency := out.confirmLatency);
    if err.Some? then res
    else if out.waited then
      res.(success := out.success, revertReason := if out.reverted then "reverted" else "")
    else res.(success := true)
  }

  /** Every Send, also one that failed before anything was broadcast, reports a non-empty hash. */
  lemma SendAlwaysReportsHash(out: Outcome, err: Option<SendError>)
    ensures OutcomeToResult(out, err).txHash != ""
  {
    assert |OutcomeToResult(out, err).txHash| == 66;
  }

  /** A failed Send is neither a success nor a revert. One that waited is what its receipt said, and
      one that did not wait is a success on being accepted. Gas, latencies and hash are the Send's. */
  lemma ResultSays(out: Outcome, err: Option<SendError>)
    ensures var res := OutcomeToResult(out, err);
      && (res.success <==> err.None? && (out.waited ==> out.success))
      && res.revertReason == (if err.None? && out.waited && out.reverted then "reverted" else "")
      && res.gasUsed == out.gasUsed
      && res.submitLatency == out.submitLatency && res.confirmLatency == out.confirmLatency
      && (out.hash < Pow16(64) ==> HexValue(res.txHash[2..]) == out.hash)
  {
    if out.hash < Pow16(64) {
      HexRoundTrip(out.hash);
    }
  }

  /** A step that did not fail is a success, a revert, or, only when a receipt came with a status
      that is neither 0 nor 1, none of the two. */
  lemma ReportedKind(sent: Outcome, r: Receipt, at: nat)
    ensures var res := OutcomeToResult(Confirmed(sent, r, at), None);
      && (res.success <==> r.status == 1)
      && (res.revertReason != "" <==> r.status == 0)
  {
  }
}
