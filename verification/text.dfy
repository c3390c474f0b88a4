/** The string functions the source takes from Go's strings and strconv, on
    strings of single-byte characters. */
module Text {
  import opened Wrappers

  // ---- prefixes, suffixes, cutting ----

  predicate HasSuffix(s: string, suffix: string) {
    |suffix| <= |s| && s[|s| - |suffix|..] == suffix
  }

  function TrimSuffix(s: string, suffix: string): string {
    if HasSuffix(s, suffix) then s[..|s| - |suffix|] else s
  }

  /** `sub` occurs in `s` at index `i`. */
  predicate OccursAt(s: string, sub: string, i: nat) {
    i + |sub| <= |s| && s[i..i + |sub|] == sub
  }

  predicate Contains(s: string, sub: string) {
    exists i: nat | i <= |s| :: OccursAt(s, sub, i)
  }

  /** Index of the first occurrence of `sub`, or |s| + 1 when there is none. */
  function IndexFrom(s: string, sub: string, from: nat): (i: nat)
    requires from <= |s| + 1
    ensures from <= i <= |s| + 1
    ensures i <= |s| ==> OccursAt(s, sub, i)
    ensures forall k: nat | from <= k < i && k <= |s| :: !OccursAt(s, sub, k)
    decreases |s| + 1 - from
  {
    if from > |s| then from
    else if OccursAt(s, sub, from) then from
    else IndexFrom(s, sub, from + 1)
  }

  datatype Halves = Halves(before: string, after: string, found: bool)

  /** strings.Cut: split around the first occurrence of `sep`. */
  function Cut(s: string, sep: string): Halves {
    var i := IndexFrom(s, sep, 0);
    if i <= |s| then Halves(s[..i], s[i + |sep|..], true) else Halves(s, "", false)
  }

  /** Cutting around a separator that does not start any earlier. */
  lemma {:induction false} CutAt(before: string, sep: string, after: string)
    requires forall k: nat | k < |before| :: !OccursAt(before + sep + after, sep, k)
    ensures Cut(before + sep + after, sep) == Halves(before, after, true)
  {
    var s := before + sep + after;
    assert OccursAt(s, sep, |before|);
    var i := IndexFrom(s, sep, 0);
    assert i == |before|;
    assert s[..i] == before && s[i + |sep|..] == after;
  }

  lemma {:induction false} CharOccurs(s: string, c: char, k: nat)
    requires OccursAt(s, [c], k)
    ensures k < |s| && s[k] == c
  {
    assert s[k] == s[k..k + 1][0];
  }

  /** A one-character separator that the first half does not contain. */
  lemma {:induction false} CutAtChar(before: string, c: char, after: string)
    requires c !in before
    ensures Cut(before + [c] + after, [c]) == Halves(before, after, true)
  {
    var s := before + [c] + after;
    forall k: nat | k < |before| ensures !OccursAt(s, [c], k) {
      assert s[k] == before[k];
      if OccursAt(s, [c], k) { CharOccurs(s, c, k); }
    }
    CutAt(before, [c], after);
  }

  lemma {:induction false} CutMissing(s: string, c: char)
    requires c !in s
    ensures Cut(s, [c]) == Halves(s, "", false)
  {
    forall k: nat | k <= |s| ensures !OccursAt(s, [c], k) {
      if OccursAt(s, [c], k) { CharOccurs(s, c, k); }
    }
  }

  // ---- white space and case ----

  predicate IsSpace(c: char) {
    c == ' ' || '\t' <= c <= '\r'
  }

  function TrimLeft(s: string): (r: string)
    ensures |r| <= |s|
    ensures r != "" ==> !IsSpace(r[0])
  {
    if s != "" && IsSpace(s[0]) then TrimLeft(s[1..]) else s
  }

  function TrimRight(s: string): (r: string)
    ensures r <= s
    ensures r != "" ==> !IsSpace(r[|r| - 1])
  {
    if s != "" && IsSpace(s[|s| - 1]) then TrimRight(s[..|s| - 1]) else s
  }

  function TrimSpace(s: string): (r: string)
    ensures r != "" ==> !IsSpace(r[0]) && !IsSpace(r[|r| - 1])
    ensures s != "" && !IsSpace(s[0]) && !IsSpace(s[|s| - 1]) ==> r == s
  {
    TrimRight(TrimLeft(s))
  }

  function LowerChar(c: char): char {
    if 'A' <= c <= 'Z' then (c as int + 32) as char else c
  }

  function ToLower(s: string): (r: string)
    ensures |r| == |s|
    ensures forall i | 0 <= i < |s| :: r[i] == LowerChar(s[i])
  {
    seq(|s|, i requires 0 <= i < |s| => LowerChar(s[i]))
  }

  lemma {:induction false} LowerKeepsSpace(c: char)
    ensures IsSpace(LowerChar(c)) == IsSpace(c)
    ensures LowerChar(LowerChar(c)) == LowerChar(c)
  {
  }

  lemma {:induction false} ToLowerIdempotent(s: string)
    ensures ToLower(ToLower(s)) == ToLower(s)
  {
    forall i | 0 <= i < |s| { LowerKeepsSpace(s[i]); }
  }

  /** strings.Trim(s, "/"). */
  function TrimSlashes(s: string): (r: string)
    ensures r != "" ==> r[0] != '/' && r[|r| - 1] != '/'
    ensures s != "" && s[0] != '/' && s[|s| - 1] != '/' ==> r == s
    ensures s == "" ==> r == ""
  {
    if s != "" && s[0] == '/' then TrimSlashes(s[1..])
    else if s != "" && s[|s| - 1] == '/' then TrimSlashes(s[..|s| - 1])
    else s
  }

  // ---- splitting and joining ----

  /** strings.Split(s, "/"), for any one-character separator. */
  function Split(s: string, sep: char): (parts: seq<string>)
    ensures |parts| >= 1
  {
    if s == "" then [""]
    else
      var rest := Split(s[1..], sep);
      if s[0] == sep then [""] + rest else [[s[0]] + rest[0]] + rest[1..]
  }

  function Join(parts: seq<string>, sep: string): string {
    if parts == [] then ""
    else if |parts| == 1 then parts[0]
    else parts[0] + sep + Join(parts[1..], sep)
  }

  /** strings.Count(s, c) for a one-character needle. */
  function Count(s: string, c: char): nat {
    if s == "" then 0 else (if s[0] == c then 1 else 0) + Count(s[1..], c)
  }

  lemma {:induction false} SplitCount(s: string, sep: char)
    ensures |Split(s, sep)| == Count(s, sep) + 1
  {
    if s != "" {
      SplitCount(s[1..], sep);
    }
  }

  lemma {:induction false} JoinSplit(s: string, sep: char)
    ensures Join(Split(s, sep), [sep]) == s
  {
    if s != "" {
      JoinSplit(s[1..], sep);
      var rest := Split(s[1..], sep);
      if s[0] == sep {
        assert ([""] + rest)[1..] == rest;
        assert "" + [sep] + s[1..] == s;
      } else {
        var parts := [[s[0]] + rest[0]] + rest[1..];
        assert parts[1..] == rest[1..];
        assert s == [s[0]] + s[1..];
      }
    }
  }

  /** The parts of a string with one more character in front. */
  function PartsCons(c: char, parts: seq<string>, sep: char): seq<string>
    requires |parts| >= 1
  {
    if c == sep then [""] + parts else [[c] + parts[0]] + parts[1..]
  }

  lemma {:induction false} SplitCons(c: char, s: string, sep: char)
    ensures Split([c] + s, sep) == PartsCons(c, Split(s, sep), sep)
  {
    assert ([c] + s)[1..] == s;
  }

  lemma {:induction false} PartsConsConcat(c: char, x: seq<string>, y: seq<string>, sep: char)
    requires |x| >= 1
    ensures PartsCons(c, x + y, sep) == PartsCons(c, x, sep) + y
  {
    assert (x + y)[1..] == x[1..] + y;
  }

  /** Splitting distributes over a separator put between two strings. */
  lemma {:induction false} SplitConcat(a: string, b: string, sep: char)
    ensures Split(a + [sep] + b, sep) == Split(a, sep) + Split(b, sep)
  {
    if a == "" {
      assert a + [sep] + b == [sep] + b;
      SplitCons(sep, b, sep);
    } else {
      var tail := a[1..];
      SplitConcat(tail, b, sep);
      assert a + [sep] + b == [a[0]] + (tail + [sep] + b) && a == [a[0]] + tail;
      SplitCons(a[0], tail + [sep] + b, sep);
      SplitCons(a[0], tail, sep);
      PartsConsConcat(a[0], Split(tail, sep), Split(b, sep), sep);
    }
  }

  lemma {:induction false} JoinConcat(a: seq<string>, b: seq<string>, sep: string)
    requires a != [] && b != []
    ensures Join(a + b, sep) == Join(a, sep) + sep + Join(b, sep)
  {
    if |a| == 1 {
      assert (a + b)[1..] == b;
    } else {
      JoinConcat(a[1..], b, sep);
      assert (a + b)[1..] == a[1..] + b;
    }
  }

  /** Length of the run of non-space characters a string starts with. */
  function WordLength(s: string): (n: nat)
    ensures n <= |s|
    ensures forall i | 0 <= i < n :: !IsSpace(s[i])
    ensures n < |s| ==> IsSpace(s[n])
  {
    if s == "" || IsSpace(s[0]) then 0 else 1 + WordLength(s[1..])
  }

  /** strings.Fields: the words between white space. */
  function Fields(s: string): seq<string>
    decreases |s|
  {
    var t := TrimLeft(s);
    if t == "" then []
    else
      var n := WordLength(t);
      [t[..n]] + Fields(t[n..])
  }

  predicate IsWord(s: string) {
    s != "" && forall c | c in s :: !IsSpace(c)
  }

  lemma {:induction false} WordLengthAt(w: string, rest: string)
    requires IsWord(w) && (rest == "" || IsSpace(rest[0]))
    ensures WordLength(w + rest) == |w|
  {
    var s := w + rest;
    var n := WordLength(s);
    assert forall i | 0 <= i < |w| :: s[i] == w[i] && s[i] in w;
    assert rest != "" ==> s[|w|] == rest[0];
  }

  lemma {:induction false} FieldsSpace(s: string)
    ensures Fields(" " + s) == Fields(s)
  {
    assert (" " + s)[1..] == s;
    assert TrimLeft(" " + s) == TrimLeft(s);
  }

  lemma {:induction false} FieldsCons(w: string, rest: string)
    requires IsWord(w) && (rest == "" || IsSpace(rest[0]))
    ensures Fields(w + rest) == [w] + Fields(rest)
  {
    var s := w + rest;
    assert s[0] == w[0] && w[0] in w;
    assert TrimLeft(s) == s;
    WordLengthAt(w, rest);
    assert s[..|w|] == w && s[|w|..] == rest;
  }

  lemma {:induction false} JoinCons(w: string, words: seq<string>)
    ensures Join([w] + words, " ") == if words == [] then w else w + (" " + Join(words, " "))
  {
    assert ([w] + words)[1..] == words;
    if words != [] {
      assert w + " " + Join(words, " ") == w + (" " + Join(words, " "));
    }
  }

  /** Words joined by single spaces come back as they were. */
  lemma {:induction false} FieldsJoin(words: seq<string>)
    requires forall w | w in words :: IsWord(w)
    ensures Fields(Join(words, " ")) == words
  {
    if words != [] {
      var w, tail := words[0], words[1..];
      assert w in words && forall x | x in tail :: x in words;
      FieldsJoin(tail);
      assert words == [w] + tail;
      JoinCons(w, tail);
      var rest := if tail == [] then "" else " " + Join(tail, " ");
      assert w + "" == w;
      FieldsCons(w, rest);
      FieldsSpace(Join(tail, " "));
    }
  }

  // ---- numbers ----

  predicate IsDigit(c: char) {
    '0' <= c <= '9'
  }

  function DigitChar(d: nat): (c: char)
    requires d < 10
    ensures IsDigit(c)
  {
    (d + '0' as int) as char
  }

  function DigitValue(c: char): (d: nat)
    requires IsDigit(c)
    ensures d < 10 && DigitChar(d) == c
  {
    c as int - '0' as int
  }

  predicate AllDigits(s: string) {
    forall i | 0 <= i < |s| :: IsDigit(s[i])
  }

  function DecimalValue(s: string): nat
    requires AllDigits(s)
  {
    if s == "" then 0 else DecimalValue(s[..|s| - 1]) * 10 + DigitValue(s[|s| - 1])
  }

  /** strconv.Itoa on a non-negative number. */
  function Itoa(n: nat): (s: string)
    ensures s != "" && AllDigits(s)
  {
    if n < 10 then [DigitChar(n)] else Itoa(n / 10) + [DigitChar(n % 10)]
  }

  lemma {:induction false} ItoaValue(n: nat)
    ensures DecimalValue(Itoa(n)) == n
  {
    if n >= 10 {
      ItoaValue(n / 10);
      var s := Itoa(n);
      assert s[..|s| - 1] == Itoa(n / 10);
    } else {
      var s := Itoa(n);
      assert s[..0] == "";
    }
  }

  lemma {:induction false} ItoaInjective(m: nat, n: nat)
    requires Itoa(m) == Itoa(n)
    ensures m == n
  {
    ItoaValue(m);
    ItoaValue(n);
  }

  /** strconv.ParseUint(s, 10, 16). */
  function ParseUint16(s: string): (r: Option<nat>)
    ensures r.Some? ==> r.value < 0x1_0000
  {
    if s == "" || !AllDigits(s) || DecimalValue(s) >= 0x1_0000 then None else Some(DecimalValue(s))
  }

  /** Decimal digits carry no white space and no sign. */
  lemma {:induction false} DigitsPlain(s: string)
    requires s != "" && AllDigits(s)
    ensures TrimSpace(s) == s
    ensures '-' !in s && ' ' !in s
  {
    assert IsDigit(s[0]) && IsDigit(s[|s| - 1]);
  }

  // ---- lexicographic order, as Go compares strings ----

  predicate Less(a: string, b: string) {
    b != "" && (a == "" || a[0] < b[0] || (a[0] == b[0] && Less(a[1..], b[1..])))
  }

  lemma {:induction false} LessTotal(a: string, b: string)
    ensures a == b || Less(a, b) || Less(b, a)
    ensures !(Less(a, b) && Less(b, a))
    ensures !Less(a, a)
  {
    if a != "" && b != "" {
      LessTotal(a[1..], b[1..]);
      if a[0] == b[0] && a[1..] == b[1..] {
        assert a == [a[0]] + a[1..] == b;
      }
    }
    if a != "" {
      LessTotal(a[1..], a[1..]);
    }
  }

  lemma {:induction false} LessTransitive(a: string, b: string, c: string)
    requires Less(a, b) && Less(b, c)
    ensures Less(a, c)
  {
    if a != "" && a[0] == b[0] == c[0] {
      LessTransitive(a[1..], b[1..], c[1..]);
    }
  }
}
