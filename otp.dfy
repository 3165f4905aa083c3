/** The four one-digit boxes of the OTP screen, identical in the three variants. */
module Otp {
  import opened Seqs

  /** The characters `\d` matches. */
  predicate IsDigit(c: char) {
    '0' <= c <= '9'
  }

  /** `value.replace(/\D/g, "").slice(0, 1)`: at most one character, and a digit. */
  function Sanitize(raw: string): (v: string)
    ensures |v| <= 1
    ensures forall k :: 0 <= k < |v| ==> IsDigit(v[k])
  {
    var digits := Filter(raw, IsDigit);
    if |digits| <= 1 then digits else digits[..1]
  }

  /** Every box holds nothing or one digit. */
  predicate WellFormed(code: seq<string>) {
    forall j :: 0 <= j < |code| ==> |code[j]| <= 1 && forall k :: 0 <= k < |code[j]| ==> IsDigit(code[j][k])
  }

  lemma {:induction false} FilterFirstDigit(raw: string, k: int)
    requires 0 <= k < |raw| && IsDigit(raw[k])
    requires forall j :: 0 <= j < k ==> !IsDigit(raw[j])
    ensures |Filter(raw, IsDigit)| > 0 && Filter(raw, IsDigit)[0] == raw[k]
  {
    if k > 0 {
      FilterFirstDigit(raw[1..], k - 1);
    }
  }

  /** The box keeps the first digit typed or pasted, whatever surrounds it. */
  lemma SanitizeFirstDigit(raw: string, k: int)
    requires 0 <= k < |raw| && IsDigit(raw[k])
    requires forall j :: 0 <= j < k ==> !IsDigit(raw[j])
    ensures Sanitize(raw) == [raw[k]]
  {
    FilterFirstDigit(raw, k);
  }

  /** Input without a digit empties the box. */
  lemma SanitizeNoDigit(raw: string)
    requires forall j :: 0 <= j < |raw| ==> !IsDigit(raw[j])
    ensures Sanitize(raw) == ""
  {
    var digits := Filter(raw, IsDigit);
    if digits != [] {
      FilterMember(raw, IsDigit, digits[0]);
    }
  }

  /** Sanitising is idempotent: what a box shows is what it would keep if entered again. */
  lemma SanitizeIdempotent(raw: string)
    ensures Sanitize(Sanitize(raw)) == Sanitize(raw)
  {
    var v := Sanitize(raw);
    if v != [] {
      SanitizeFirstDigit(v, 0);
    } else {
      SanitizeNoDigit(v);
    }
  }

  /** The box's `onChange`: copy the code, replace slot `i` by the sanitised input. */
  method SetSlot(code: seq<string>, i: int, raw: string) returns (next: seq<string>)
    requires 0 <= i < |code|
    ensures |next| == |code| && next[i] == Sanitize(raw)
    ensures forall j :: 0 <= j < |code| && j != i ==> next[j] == code[j]
    ensures WellFormed(code) ==> WellFormed(next)
  {
    var n := new string[|code|](j requires 0 <= j < |code| => code[j]);
    n[i] := Sanitize(raw);
    next := n[..];
  }
}
