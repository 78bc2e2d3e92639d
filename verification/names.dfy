/** Display names: the allow-list check with truncation, and the numeric suffix that keeps names distinct. */
module Names {
  import opened JsValues
  import opened Config

  /** The characters the server's name pattern admits: digits, letters, underscore, space and plus. */
  predicate Allowed(ch: char) {
    '0' <= ch <= '9' || 'a' <= ch <= 'z' || 'A' <= ch <= 'Z' || ch == '_' || ch == ' ' || ch == '+'
  }

  /** A string the anchored pattern `^[...]+$` matches: non-empty and made of allowed characters only. */
  predicate Accepted(s: string) {
    |s| > 0 && forall i :: 0 <= i < |s| ==> Allowed(s[i])
  }

  /** `substring(0, 16)` */
  function Truncate(s: string): (r: string)
    ensures |r| <= NameLimit && r <= s
    ensures |s| <= NameLimit ==> r == s
    ensures |s| > NameLimit ==> |r| == NameLimit
  {
    if |s| <= NameLimit then s else s[..NameLimit]
  }

  /** The name a new player asks for, before the de-duplication: an accepted string cut to sixteen
      characters, and "guest" for anything else (a non-string, the empty string, a forbidden character). */
  function BaseName(req: JsValue): (r: string)
    ensures Accepted(r) && |r| <= NameLimit
    ensures req.JsString? && Accepted(req.s) ==> r <= req.s && (|req.s| <= NameLimit ==> r == req.s)
    ensures req.JsString? && Accepted(req.s) && |req.s| > NameLimit ==> r == req.s[..NameLimit]
    ensures !(req.JsString? && Accepted(req.s)) ==> r == DefaultName
  {
    if req.JsString? && Accepted(req.s) then Truncate(req.s) else DefaultName
  }

  /** Asking again for the name one was given gives the same name. */
  lemma BaseNameIdempotent(req: JsValue)
    ensures BaseName(JsString(BaseName(req))) == BaseName(req)
  {
  }

  function Digit(d: nat): (ch: char)
    requires d < 10
    ensures '0' <= ch <= '9'
  {
    ('0' as int + d) as char
  }

  function DigitValue(ch: char): nat {
    if '0' <= ch <= '9' then (ch as int - '0' as int) else 0
  }

  /** The decimal numeral JavaScript writes for `n` when a number is appended to a string. */
  function Dec(n: nat): (r: string)
    ensures |r| > 0
    decreases n
  {
    if n < 10 then [Digit(n)] else Dec(n / 10) + [Digit(n % 10)]
  }

  /** The value of a numeral. */
  function Parse(s: string): nat
    decreases |s|
  {
    if |s| == 0 then 0 else 10 * Parse(s[..|s| - 1]) + DigitValue(s[|s| - 1])
  }

  /** Reading back a numeral gives the number it was written from. */
  lemma {:induction false} ParseDec(n: nat)
    ensures Parse(Dec(n)) == n
    decreases n
  {
    if n >= 10 {
      ParseDec(n / 10);
      var s := Dec(n);
      assert s[..|s| - 1] == Dec(n / 10);
    }
  }

  /** Distinct numbers are written as distinct numerals. */
  lemma DecInjective(m: nat, n: nat)
    ensures Dec(m) == Dec(n) ==> m == n
  {
    ParseDec(m);
    ParseDec(n);
  }

  /** Distinct suffixes give distinct names. */
  lemma SuffixInjective(base: string, j: nat, k: nat)
    ensures base + Dec(j) == base + Dec(k) ==> j == k
  {
    if base + Dec(j) == base + Dec(k) {
      assert (base + Dec(j))[|base|..] == Dec(j);
      assert (base + Dec(k))[|base|..] == Dec(k);
      DecInjective(j, k);
    }
  }

  /** The names base1, ..., base(k-1). */
  function Suffixed(base: string, k: nat): (r: set<string>)
    ensures forall j :: 1 <= j < k ==> base + Dec(j) in r
    ensures forall j :: j >= k ==> base + Dec(j) !in r
    decreases k
  {
    if k <= 1 then {}
    else
      forall j | j >= k ensures base + Dec(j) != base + Dec(k - 1) {
        SuffixInjective(base, j, k - 1);
      }
      Suffixed(base, k - 1) + {base + Dec(k - 1)}
  }

  lemma {:induction false} SuffixedSize(base: string, k: nat)
    ensures |Suffixed(base, k)| == if k <= 1 then 0 else k - 1
    decreases k
  {
    if k > 1 {
      SuffixedSize(base, k - 1);
      assert base + Dec(k - 1) !in Suffixed(base, k - 1);
    }
  }

  lemma {:induction false} SuffixedTaken(names: set<string>, base: string, k: nat)
    requires forall j :: 1 <= j < k ==> base + Dec(j) in names
    ensures Suffixed(base, k) <= names
    decreases k
  {
    if k > 1 {
      SuffixedTaken(names, base, k - 1);
    }
  }

  /** Pigeonhole: if base1, ..., base(k-1) are all taken, there are at least k - 1 taken names. */
  lemma TakenBound(names: set<string>, base: string, k: nat)
    requires forall j :: 1 <= j < k ==> base + Dec(j) in names
    ensures k <= |names| + 1
  {
    SuffixedSize(base, k);
    SuffixedTaken(names, base, k);
    SubsetSize(Suffixed(base, k), names);
  }

  lemma SubsetSize<T>(a: set<T>, b: set<T>)
    requires a <= b
    ensures |a| <= |b|
  {
    assert b == a + (b - a);
  }

  /** The suffix loop started at `k`, once every smaller suffix is known to be taken. */
  function SearchFrom(names: set<string>, base: string, k: nat): (r: nat)
    requires 1 <= k
    requires forall j :: 1 <= j < k ==> base + Dec(j) in names
    ensures k <= r && base + Dec(r) !in names
    ensures forall j :: 1 <= j < r ==> base + Dec(j) in names
    decreases |names| + 1 - k
  {
    TakenBound(names, base, k);
    if base + Dec(k) !in names then k
    else
      TakenBound(names, base, k + 1);
      SearchFrom(names, base, k + 1)
  }

  /** The smallest positive suffix that makes `base` free. */
  function FreeSuffix(names: set<string>, base: string): (k: nat)
    ensures 1 <= k && base + Dec(k) !in names
    ensures forall j :: 1 <= j < k ==> base + Dec(j) in names
  {
    SearchFrom(names, base, 1)
  }

  /** The name the `Player` constructor settles on, given the names of the players in the map. */
  function UniqueName(names: set<string>, base: string): (r: string)
    ensures r !in names
    ensures base !in names ==> r == base
    ensures base in names ==> r == base + Dec(FreeSuffix(names, base))
  {
    if base !in names then base else base + Dec(FreeSuffix(names, base))
  }

  /** The name of a new player who asked for `req` while the players in the map are called `names`. */
  function NewName(names: set<string>, req: JsValue): (r: string)
    ensures r !in names
    ensures BaseName(req) !in names ==> r == BaseName(req) && |r| <= NameLimit
  {
    UniqueName(names, BaseName(req))
  }

  /** The suffix can push a name past the sixteen characters the truncation allows. */
  lemma LongSuffixedName()
    ensures |NewName({"abcdefghijklmnop"}, JsString("abcdefghijklmnop"))| == NameLimit + 1
  {
    var base := "abcdefghijklmnop";
    assert BaseName(JsString(base)) == base;
    assert Dec(1) == "1";
    assert FreeSuffix({base}, base) == 1;
  }
}
