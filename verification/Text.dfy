/** Decimal text and the string helpers several parts of kiac share. */
module Text {
  import opened Options

  predicate IsDigit(c: char) { '0' <= c <= '9' }

  predicate AllDigits(s: string) { forall i :: 0 <= i < |s| ==> IsDigit(s[i]) }

  function DigitChar(d: nat): char
    requires d < 10
  {
    '0' + d as char
  }

  function DigitValue(c: char): (d: nat)
    requires IsDigit(c)
    ensures d < 10
  {
    (c - '0') as nat
  }

  /** strconv.Itoa on a natural number. */
  function Itoa(n: nat): string {
    if n < 10 then [DigitChar(n)] else Itoa(n / 10) + [DigitChar(n % 10)]
  }

  function DecimalValue(s: string): nat
    requires AllDigits(s)
  {
    if s == [] then 0 else DecimalValue(s[..|s| - 1]) * 10 + DigitValue(s[|s| - 1])
  }

  predicate Canonical(s: string) {
    AllDigits(s) && s != [] && (s[0] != '0' || |s| == 1)
  }

  /** Printing then reading a number gives it back, and what is printed has no leading zero. */
  lemma {:induction false} ItoaReads(n: nat)
    ensures Canonical(Itoa(n)) && DecimalValue(Itoa(n)) == n
    ensures n > 0 ==> Itoa(n)[0] != '0'
  {
    if n >= 10 {
      ItoaReads(n / 10);
      var s := Itoa(n / 10);
      assert Itoa(n)[..|s|] == s;
      assert Itoa(n)[0] == s[0];
    }
  }

  /** Canonical decimals are exactly what Itoa prints. */
  lemma {:induction false} CanonicalIsItoa(s: string)
    requires Canonical(s)
    ensures Itoa(DecimalValue(s)) == s
    ensures |s| > 1 ==> DecimalValue(s) >= 10
    ensures s[0] != '0' ==> DecimalValue(s) > 0
  {
    var init, last := s[..|s| - 1], s[|s| - 1];
    if |s| > 1 {
      CanonicalIsItoa(init);
      assert DecimalValue(s) == DecimalValue(init) * 10 + DigitValue(last);
      assert s == init + [last];
    } else {
      assert init == [];
      assert DecimalValue(init) == 0;
    }
  }

  lemma ItoaInjective(a: nat, b: nat)
    requires Itoa(a) == Itoa(b)
    ensures a == b
  {
    ItoaReads(a);
    ItoaReads(b);
  }

  const MAX_INT: int := 0x7fff_ffff_ffff_ffff

  /** strconv.Atoi: an optional sign, then decimal digits, within 64 bits. */
  function Atoi(s: string): Option<int> {
    var digits := if s != [] && (s[0] == '+' || s[0] == '-') then s[1..] else s;
    if digits == [] || !AllDigits(digits) then None
    else
      var magnitude: int := DecimalValue(digits);
      var v := if s[0] == '-' then -magnitude else magnitude;
      if -MAX_INT - 1 <= v <= MAX_INT then Some(v) else None
  }

  lemma AtoiItoa(n: nat)
    requires n <= MAX_INT
    ensures Atoi(Itoa(n)) == Some(n)
  {
    ItoaReads(n);
  }

  // ---- searching and cutting ----

  /** The first position of `c`, or the length of `s`. */
  function IndexOf(s: string, c: char): (i: nat)
    ensures i <= |s| && (i < |s| ==> s[i] == c)
    ensures forall k :: 0 <= k < i ==> s[k] != c
  {
    if s == [] || s[0] == c then 0 else 1 + IndexOf(s[1..], c)
  }

  lemma {:induction false} IndexOfAppend(a: string, c: char, b: string)
    requires c !in a
    ensures IndexOf(a + [c] + b, c) == |a|
  {
    if a == [] {
      assert a + [c] + b == [c] + b;
    } else {
      assert (a + [c] + b)[1..] == a[1..] + [c] + b;
      IndexOfAppend(a[1..], c, b);
    }
  }

  lemma {:induction false} IndexOfAbsent(a: string, c: char)
    requires c !in a
    ensures IndexOf(a, c) == |a|
  {
    if a != [] {
      IndexOfAbsent(a[1..], c);
    }
  }

  /** The last position of `c`, or -1. */
  function LastIndexOf(s: string, c: char): (i: int)
    ensures -1 <= i < |s| && (i >= 0 ==> s[i] == c)
    ensures forall k :: i < k < |s| ==> s[k] != c
  {
    if s == [] then -1 else if s[|s| - 1] == c then |s| - 1 else LastIndexOf(s[..|s| - 1], c)
  }

  /** strings.Split on a single character. */
  function Split(s: string, c: char): (parts: seq<string>)
    ensures parts != []
    decreases |s|
  {
    var i := IndexOf(s, c);
    if i == |s| then [s] else [s[..i]] + Split(s[i + 1..], c)
  }

  function Join(parts: seq<string>, sep: string): string {
    if parts == [] then "" else if |parts| == 1 then parts[0] else parts[0] + sep + Join(parts[1..], sep)
  }

  lemma SplitCons(a: string, c: char, b: string)
    requires c !in a
    ensures Split(a + [c] + b, c) == [a] + Split(b, c)
  {
    IndexOfAppend(a, c, b);
    assert (a + [c] + b)[..|a|] == a;
    assert (a + [c] + b)[|a| + 1..] == b;
  }

  /** Splitting undoes joining for parts that do not contain the separator. */
  lemma {:induction false} SplitJoin(parts: seq<string>, c: char)
    requires parts != [] && forall i :: 0 <= i < |parts| ==> c !in parts[i]
    ensures Split(Join(parts, [c]), c) == parts
  {
    if |parts| == 1 {
      IndexOfAbsent(parts[0], c);
    } else {
      SplitJoin(parts[1..], c);
      SplitCons(parts[0], c, Join(parts[1..], [c]));
      assert parts == [parts[0]] + parts[1..];
    }
  }

  lemma {:induction false} SplitPartsFree(s: string, c: char)
    ensures forall p :: p in Split(s, c) ==> c !in p
    decreases |s|
  {
    var i := IndexOf(s, c);
    if i < |s| {
      SplitPartsFree(s[i + 1..], c);
    }
  }

  /** The text is its parts and separators, so it has no other characters. */
  lemma {:induction false} SplitCovers(s: string, c: char, ok: char -> bool)
    requires forall i, k :: 0 <= i < |Split(s, c)| && 0 <= k < |Split(s, c)[i]| ==> ok(Split(s, c)[i][k])
    ensures forall k :: 0 <= k < |s| ==> s[k] == c || ok(s[k])
    decreases |s|
  {
    var i := IndexOf(s, c);
    var parts := Split(s, c);
    if i < |s| {
      var rest := s[i + 1..];
      assert forall j :: 0 <= j < |Split(rest, c)| ==> Split(rest, c)[j] == parts[j + 1];
      SplitCovers(rest, c, ok);
      forall k | 0 <= k < |s| ensures s[k] == c || ok(s[k]) {
        if k < i {
          assert s[k] == parts[0][k];
        } else if k > i {
          assert s[k] == rest[k - i - 1];
        }
      }
    } else {
      assert parts[0] == s;
    }
  }

  lemma {:induction false} SplitLength(s: string, c: char, most: nat)
    requires forall i :: 0 <= i < |Split(s, c)| ==> |Split(s, c)[i]| <= most
    ensures |s| <= Total(|Split(s, c)|, most + 1)
    decreases |s|
  {
    var i := IndexOf(s, c);
    var parts := Split(s, c);
    assert |parts[0]| <= most;
    if i < |s| {
      var rest := s[i + 1..];
      assert forall j :: 0 <= j < |Split(rest, c)| ==> Split(rest, c)[j] == parts[j + 1];
      SplitLength(rest, c, most);
    }
  }

  function Total(n: nat, each: nat): nat { if n == 0 then 0 else Total(n - 1, each) + each }

  lemma {:induction false} TotalMonotone(n: nat, m: nat, each: nat)
    requires n <= m
    ensures Total(n, each) <= Total(m, each)
  {
    if n < m {
      TotalMonotone(n, m - 1, each);
    }
  }

  /** A character that is in no part and not in the separator is not in the joined text. */
  lemma {:induction false} JoinFree(parts: seq<string>, sep: string, c: char)
    requires c !in sep && forall i :: 0 <= i < |parts| ==> c !in parts[i]
    ensures c !in Join(parts, sep)
  {
    if |parts| > 1 {
      JoinFree(parts[1..], sep, c);
    }
  }

  /** strings.ReplaceAll of one character by a string. */
  function Replace(s: string, c: char, with: string): string {
    if s == [] then "" else (if s[0] == c then with else [s[0]]) + Replace(s[1..], c, with)
  }

  lemma {:induction false} ReplaceAbsent(s: string, c: char, with: string)
    requires c !in s
    ensures Replace(s, c, with) == s
  {
    if s != [] {
      ReplaceAbsent(s[1..], c, with);
    }
  }

  function Count(s: string, c: char): nat {
    if s == [] then 0 else Count(s[..|s| - 1], c) + if s[|s| - 1] == c then 1 else 0
  }

  lemma {:induction false} CountAbsent(s: string, c: char)
    ensures Count(s, c) == 0 <==> c !in s
  {
    if s != [] {
      CountAbsent(s[..|s| - 1], c);
      assert s == s[..|s| - 1] + [s[|s| - 1]];
    }
  }

  lemma {:induction false} CountConcat(a: string, b: string, c: char)
    ensures Count(a + b, c) == Count(a, c) + Count(b, c)
  {
    if b == [] {
      assert a + b == a;
    } else {
      assert (a + b)[..|a + b| - 1] == a + b[..|b| - 1];
      CountConcat(a, b[..|b| - 1], c);
    }
  }

  /** strings.ToLower, as far as it can produce the letters compared with here. */
  function Lower(s: string): string {
    seq(|s|, i requires 0 <= i < |s| => if 'A' <= s[i] <= 'Z' then s[i] - 'A' + 'a' else s[i])
  }

  // ---- white space ----

  /** unicode.IsSpace. */
  predicate IsSpace(c: char) {
    || '\t' <= c <= '\r' || c == ' ' || c == '\U{85}' || c == '\U{A0}' || c == '\U{1680}'
    || '\U{2000}' <= c <= '\U{200A}' || c == '\U{2028}' || c == '\U{2029}' || c == '\U{202F}'
    || c == '\U{205F}' || c == '\U{3000}'
  }

  function TrimLeft(s: string): string {
    if s != [] && IsSpace(s[0]) then TrimLeft(s[1..]) else s
  }

  function TrimRight(s: string): string {
    if s != [] && IsSpace(s[|s| - 1]) then TrimRight(s[..|s| - 1]) else s
  }

  /** strings.TrimSpace. */
  function TrimSpace(s: string): string { TrimRight(TrimLeft(s)) }

  /** The end of the first word of `s`. */
  function WordEnd(s: string): (n: nat)
    ensures n <= |s| && (n < |s| ==> IsSpace(s[n])) && forall k :: 0 <= k < n ==> !IsSpace(s[k])
  {
    if s == [] || IsSpace(s[0]) then 0 else 1 + WordEnd(s[1..])
  }

  /** strings.Fields: the words between runs of white space. */
  function Fields(s: string): seq<string>
    decreases |s|
  {
    var t := TrimLeft(s);
    TrimLeftShorter(s);
    if t == [] then [] else [t[..WordEnd(t)]] + Fields(t[WordEnd(t)..])
  }

  lemma TrimLeftShorter(s: string)
    ensures |TrimLeft(s)| <= |s| && (TrimLeft(s) != [] ==> !IsSpace(TrimLeft(s)[0]))
  {
  }

  predicate Word(s: string) { s != [] && forall k :: 0 <= k < |s| ==> !IsSpace(s[k]) }

  lemma FieldsWord(word: string, space: char, rest: string)
    requires Word(word) && IsSpace(space)
    ensures Fields(word + [space] + rest) == [word] + Fields(rest)
  {
    var s := word + [space] + rest;
    assert s[0] == word[0] && TrimLeft(s) == s;
    assert s[|word|] == space && forall k :: 0 <= k < |word| ==> s[k] == word[k];
    assert WordEnd(s) == |word|;
    assert s[..|word|] == word && s[|word|..] == [space] + rest;
    FieldsSpace(space, rest);
  }

  lemma FieldsSpace(space: char, rest: string)
    requires IsSpace(space)
    ensures Fields([space] + rest) == Fields(rest)
  {
    assert ([space] + rest)[1..] == rest;
    assert TrimLeft([space] + rest) == TrimLeft(rest);
  }

  /** No white space at either end. */
  predicate Trimmed(s: string) { s == [] || (!IsSpace(s[0]) && !IsSpace(s[|s| - 1])) }

  lemma TrimmedFixed(s: string)
    requires Trimmed(s)
    ensures TrimSpace(s) == s
  {
  }

  lemma {:induction false} TrimLeftEnds(s: string)
    ensures TrimLeft(s) != [] ==> !IsSpace(TrimLeft(s)[0])
    ensures forall c :: c in TrimLeft(s) ==> c in s
  {
    if s != [] && IsSpace(s[0]) {
      TrimLeftEnds(s[1..]);
    }
  }

  lemma {:induction false} TrimRightEnds(s: string)
    ensures TrimRight(s) != [] ==> !IsSpace(TrimRight(s)[|TrimRight(s)| - 1]) && TrimRight(s)[0] == s[0]
    ensures forall c :: c in TrimRight(s) ==> c in s
  {
    if s != [] && IsSpace(s[|s| - 1]) {
      TrimRightEnds(s[..|s| - 1]);
    }
  }

  lemma TrimSpaceTrims(s: string)
    ensures Trimmed(TrimSpace(s))
    ensures forall c :: c in TrimSpace(s) ==> c in s
  {
    TrimLeftEnds(s);
    TrimRightEnds(TrimLeft(s));
  }
}
