/** The field rules the request schemas are built from, each as a parser from a JSON
    value to the typed value the schema outputs. */
module ZodRules {
  import opened Wrappers
  import opened Tables
  import opened Json

  /** The largest integer `z.number().int()` accepts (`Number.MAX_SAFE_INTEGER`). */
  const MaxSafeInteger: int := 9007199254740991

  /** `z.uuid()`. */
  function Uuid(f: Formats, v: Js): (r: Option<string>)
    ensures r.Some? <==> v.JsString? && f.isUuid(v.s)
    ensures r.Some? ==> r.value == v.s
  {
    if v.JsString? && f.isUuid(v.s) then Some(v.s) else None
  }

  /** `z.email()`. */
  function Email(f: Formats, v: Js): (r: Option<string>)
    ensures r.Some? <==> v.JsString? && f.isEmail(v.s)
    ensures r.Some? ==> r.value == v.s
  {
    if v.JsString? && f.isEmail(v.s) then Some(v.s) else None
  }

  /** `z.string()`. */
  function Text(v: Js): (r: Option<string>)
    ensures r.Some? <==> v.JsString?
    ensures r.Some? ==> r.value == v.s
  {
    if v.JsString? then Some(v.s) else None
  }

  /** `z.string().min(n)`. */
  function MinText(v: Js, n: nat): (r: Option<string>)
    ensures r.Some? <==> v.JsString? && |v.s| >= n
    ensures r.Some? ==> r.value == v.s
  {
    if v.JsString? && |v.s| >= n then Some(v.s) else None
  }

  /** `z.enum([...])`, with `parse` the inverse of the enum's names. */
  function Enum<E>(v: Js, parse: string -> Option<E>): (r: Option<E>)
    ensures r.Some? <==> v.JsString? && parse(v.s).Some?
    ensures r.Some? ==> r == parse(v.s)
  {
    if v.JsString? then parse(v.s) else None
  }

  /** `z.number().int().min(1)`: a whole number from 1 to the safe-integer bound. */
  function Quantity(v: Js): (r: Option<int>)
    ensures r.Some? <==> v.JsNumber? && v.n == v.n.Floor as real && 1 <= v.n.Floor <= MaxSafeInteger
    ensures r.Some? ==> r.value as real == v.n && r.value >= 1
  {
    if v.JsNumber? && v.n == v.n.Floor as real && 1 <= v.n.Floor <= MaxSafeInteger then Some(v.n.Floor) else None
  }

  /** `.optional()`: a missing key passes as None; anything else must satisfy the rule. */
  function Optional<T>(v: Js, rule: Js -> Option<T>): (r: Option<Option<T>>)
    ensures v.Undefined? ==> r == Some(None)
    ensures !v.Undefined? ==> (r.Some? <==> rule(v).Some?)
    ensures !v.Undefined? && r.Some? ==> r.value == rule(v)
  {
    if v.Undefined? then Some(None)
    else match rule(v)
      case None => None
      case Some(x) => Some(Some(x))
  }

  // What each field rule accepts and yields, stated on the JSON value itself; the
  // schemas' contracts are written with these.

  predicate UuidOk(f: Formats, v: Js) { v.JsString? && f.isUuid(v.s) }

  predicate OptUuidOk(f: Formats, v: Js) { v.Undefined? || UuidOk(f, v) }

  predicate OptDateOk(f: Formats, v: Js) { v.Undefined? || f.toDate(v).Some? }

  predicate TextOk(v: Js, n: nat) { v.JsString? && |v.s| >= n }

  /** The string an accepted optional string field yields. */
  function Present(v: Js): Option<string> { if v.JsString? then Some(v.s) else None }

  /** The date an accepted optional date field yields. */
  function DateOf(f: Formats, v: Js): Option<Time> { if v.Undefined? then None else f.toDate(v) }

  // ---------------------------------------------------------------------------
  // The price rule `^\d+(\.\d{1,2})?$`

  /** `\d` without the unicode flag: an ASCII digit. */
  predicate IsDigit(c: char) { '0' <= c <= '9' }

  predicate AllDigits(s: string) { forall k :: 0 <= k < |s| ==> IsDigit(s[k]) }

  /** The language of the pattern: one or more digits, optionally a point and one or two digits. */
  ghost predicate PriceLanguage(s: string) {
    exists p :: 1 <= p <= |s| && AllDigits(s[..p])
                && (p == |s| || (s[p] == '.' && 2 <= |s| - p <= 3 && AllDigits(s[p + 1..])))
  }

  /** The length of the run of digits starting at `i`. */
  function DigitRun(s: string, i: nat): (n: nat)
    requires i <= |s|
    ensures i + n <= |s|
    ensures forall k :: i <= k < i + n ==> IsDigit(s[k])
    ensures i + n < |s| ==> !IsDigit(s[i + n])
    decreases |s| - i
  {
    if i < |s| && IsDigit(s[i]) then 1 + DigitRun(s, i + 1) else 0
  }

  /** The anchored match, as a backtracking-free scan: the greedy digit run, then either
      the end or a point followed by a run of one or two digits reaching the end. */
  predicate MatchesPrice(s: string) {
    var n := DigitRun(s, 0);
    n >= 1 && (n == |s| || (s[n] == '.' && var m := DigitRun(s, n + 1); 1 <= m <= 2 && n + 1 + m == |s|))
  }

  /** A digit run is determined by where the digits stop. */
  lemma DigitRunEnds(s: string, i: nat, p: nat)
    requires i <= p <= |s|
    requires forall k :: i <= k < p ==> IsDigit(s[k])
    requires p < |s| ==> !IsDigit(s[p])
    ensures DigitRun(s, i) == p - i
  {
    var n := DigitRun(s, i);
    assert i + n >= p;
    assert i + n <= p;
  }

  /** The scan accepts exactly the pattern's language. */
  lemma MatchesPriceIff(s: string)
    ensures MatchesPrice(s) <==> PriceLanguage(s)
  {
    var n := DigitRun(s, 0);
    if MatchesPrice(s) {
      assert AllDigits(s[..n]);
      if n < |s| {
        var m := DigitRun(s, n + 1);
        assert s[n + 1..] == s[n + 1..n + 1 + m];
        assert AllDigits(s[n + 1..]);
      }
    }
    if PriceLanguage(s) {
      var p :| 1 <= p <= |s| && AllDigits(s[..p])
               && (p == |s| || (s[p] == '.' && 2 <= |s| - p <= 3 && AllDigits(s[p + 1..])));
      assert forall k :: 0 <= k < p ==> IsDigit(s[k]) by {
        forall k | 0 <= k < p ensures IsDigit(s[k]) { assert s[..p][k] == s[k]; }
      }
      DigitRunEnds(s, 0, p);
      if p < |s| {
        assert forall k :: p + 1 <= k < |s| ==> IsDigit(s[k]) by {
          forall k | p + 1 <= k < |s| ensures IsDigit(s[k]) { assert s[p + 1..][k - p - 1] == s[k]; }
        }
        DigitRunEnds(s, p + 1, |s|);
      }
    }
  }

  /** `z.string().regex(/^\d+(\.\d{1,2})?$/)`. */
  function Price(v: Js): (r: Option<string>)
    ensures r.Some? <==> v.JsString? && PriceLanguage(v.s)
    ensures r.Some? ==> r.value == v.s
  {
    if v.JsString? then MatchesPriceIff(v.s); if MatchesPrice(v.s) then Some(v.s) else None else None
  }

  /** Strings the pattern accepts: "9.99", "10", "0.5". */
  lemma PriceAccepts()
    ensures MatchesPrice("9.99") && MatchesPrice("10") && MatchesPrice("0.5")
  {
    DigitRunEnds("9.99", 0, 1);
    DigitRunEnds("9.99", 2, 4);
    DigitRunEnds("10", 0, 2);
    DigitRunEnds("0.5", 0, 1);
    DigitRunEnds("0.5", 2, 3);
  }

  /** Strings the pattern rejects: no leading digit, a bare point, three decimals, a sign, nothing. */
  lemma PriceRejects()
    ensures !MatchesPrice(".5") && !MatchesPrice("1.") && !MatchesPrice("1.234") && !MatchesPrice("-1") && !MatchesPrice("")
  {
    DigitRunEnds(".5", 0, 0);
    DigitRunEnds("1.", 0, 1);
    DigitRunEnds("1.", 2, 2);
    DigitRunEnds("1.234", 0, 1);
    DigitRunEnds("1.234", 2, 5);
    DigitRunEnds("-1", 0, 0);
  }
}
