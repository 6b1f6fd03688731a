/**
 * What the two edge functions (supabase/functions/run-debate/index.ts and
 * supabase/functions/evaluate-judge/index.ts) share: the API key check, the reply of the
 * language-model API, and the error text for a non-ok reply.
 */
module Edge {
  import opened Wrappers

  /** `!ANTHROPIC_API_KEY` fails for an unset variable and for the empty string. */
  predicate Configured(key: Option<string>) {
    key.Some? && key.value != ""
  }

  const KEY_MISSING: string := "ANTHROPIC_API_KEY not configured"

  /** The upstream reply: a non-ok status with its body text, or the text of the first content block. */
  datatype Reply = Failed(status: nat, body: string) | Answered(text: string)

  function DigitChar(d: nat): char
    requires d < 10
  {
    (48 + d) as char
  }

  predicate IsDigit(c: char) {
    '0' <= c <= '9'
  }

  /** A status number as a template literal prints it: its decimal digits. */
  function NatToString(n: nat): (r: string)
    ensures |r| >= 1 && forall i | 0 <= i < |r| :: IsDigit(r[i])
    decreases n
  {
    if n < 10 then [DigitChar(n)] else NatToString(n / 10) + [DigitChar(n % 10)]
  }

  /** The number a string of decimal digits denotes. */
  function DigitsValue(s: string): nat
    requires forall i | 0 <= i < |s| :: IsDigit(s[i])
    decreases |s|
  {
    if s == [] then 0
    else
      assert IsDigit(s[|s| - 1]);
      10 * DigitsValue(s[..|s| - 1]) + (s[|s| - 1] as int - 48)
  }

  /** The printed digits read back as the number. */
  lemma {:induction false} NatToStringValue(n: nat)
    ensures DigitsValue(NatToString(n)) == n
    decreases n
  {
    if n >= 10 {
      NatToStringValue(n / 10);
      var r := NatToString(n);
      assert r[..|r| - 1] == NatToString(n / 10);
    }
  }

  /** The message of the error thrown for a non-ok upstream reply. */
  function ApiError(status: nat, body: string): string {
    "Anthropic API error: " + NatToString(status) + " - " + body
  }
}
