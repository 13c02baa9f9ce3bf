/** The few pieces of java.lang the commands rely on: ASCII case folding
    (String.toUpperCase, String.equalsIgnoreCase), the ordering of
    String.compareTo that a TreeMap<String, _> iterates in, and the decimal
    grammar of Integer.parseInt / String.valueOf(int). */
module JavaLang {

  datatype Option<T> = None | Some(value: T)

  // ---------------------------------------------------------------------
  // Case folding (ASCII only)

  function UpperChar(c: char): (u: char)
    ensures 'a' <= c <= 'z' ==> u as int == c as int - 32
    ensures !('a' <= c <= 'z') ==> u == c
  {
    if 'a' <= c <= 'z' then (c as int - 32) as char else c
  }

  /** String.toUpperCase, restricted to ASCII letters. */
  function ToUpper(s: string): (u: string)
    ensures |u| == |s|
    ensures forall i :: 0 <= i < |s| ==> u[i] == UpperChar(s[i])
  {
    if s == [] then [] else [UpperChar(s[0])] + ToUpper(s[1..])
  }

  /** A string without lower-case letters is its own upper case. */
  lemma ToUpperKeepsUpper(s: string)
    requires forall i :: 0 <= i < |s| ==> !('a' <= s[i] <= 'z')
    ensures ToUpper(s) == s
  {
    assert forall i :: 0 <= i < |s| ==> ToUpper(s)[i] == s[i];
  }

  /** String.equalsIgnoreCase, restricted to ASCII letters. */
  predicate EqualsIgnoreCase(a: string, b: string)
  {
    ToUpper(a) == ToUpper(b)
  }

  lemma EqualsIgnoreCaseIsEquivalence(a: string, b: string, c: string)
    ensures EqualsIgnoreCase(a, a)
    ensures EqualsIgnoreCase(a, b) ==> EqualsIgnoreCase(b, a)
    ensures EqualsIgnoreCase(a, b) && EqualsIgnoreCase(b, c) ==> EqualsIgnoreCase(a, c)
  {
  }

  /** Two strings equal ignoring case have the same length and agree on every
      position up to case. */
  lemma {:induction false} EqualsIgnoreCaseAt(a: string, b: string, i: int)
    requires EqualsIgnoreCase(a, b) && 0 <= i < |a|
    ensures |a| == |b| && UpperChar(a[i]) == UpperChar(b[i])
  {
    assert ToUpper(a)[i] == ToUpper(b)[i];
  }

  // ---------------------------------------------------------------------
  // String.compareTo: lexicographic on char codes, a proper prefix first

  predicate Less(a: string, b: string)
    decreases |a|
  {
    if a == [] then b != []
    else if b == [] then false
    else if a[0] != b[0] then a[0] < b[0]
    else Less(a[1..], b[1..])
  }

  lemma {:induction false} LessIrreflexive(a: string)
    ensures !Less(a, a)
    decreases |a|
  {
    if a != [] { LessIrreflexive(a[1..]); }
  }

  lemma {:induction false} LessTransitive(a: string, b: string, c: string)
    requires Less(a, b) && Less(b, c)
    ensures Less(a, c)
    decreases |a|
  {
    if a != [] && b != [] && c != [] && a[0] == b[0] && b[0] == c[0] {
      LessTransitive(a[1..], b[1..], c[1..]);
    }
  }

  lemma {:induction false} LessTotal(a: string, b: string)
    requires a != b
    ensures Less(a, b) || Less(b, a)
    decreases |a|
  {
    if a != [] && b != [] && a[0] == b[0] {
      assert a == [a[0]] + a[1..] && b == [b[0]] + b[1..];
      LessTotal(a[1..], b[1..]);
    }
  }

  /** `m` is a least element of `s`. */
  ghost predicate IsLeast(s: set<string>, m: string)
  {
    m in s && forall k :: k in s ==> !Less(k, m)
  }

  /** Adding one string to a set with a least element: the smaller of the
      two is least in the larger set. */
  lemma LeastWithOneMore(s: set<string>, x: string, m: string)
    requires IsLeast(s, m)
    ensures Less(x, m) ==> IsLeast(s + {x}, x)
    ensures !Less(x, m) ==> IsLeast(s + {x}, m)
  {
    if Less(x, m) {
      LessIrreflexive(x);
      forall k | k in s + {x} && k != x ensures !Less(k, x) {
        if Less(k, x) {
          LessTransitive(k, x, m);
        }
      }
    }
  }

  /** Every finite non-empty set of strings has a least element. */
  lemma {:induction false} MinimumExists(s: set<string>)
    requires s != {}
    ensures exists m :: m in s && forall k :: k in s ==> !Less(k, m)
    decreases |s|
  {
    var x :| x in s;
    var rest := s - {x};
    assert s == rest + {x};
    if rest == {} {
      LessIrreflexive(x);
      assert IsLeast(s, x);
    } else {
      MinimumExists(rest);
      var m :| m in rest && forall k :: k in rest ==> !Less(k, m);
      assert IsLeast(rest, m);
      LeastWithOneMore(rest, x, m);
      if Less(x, m) {
        assert IsLeast(s, x);
      } else {
        assert IsLeast(s, m);
      }
    }
  }

  predicate StrictlySorted(ks: seq<string>)
  {
    forall i, j :: 0 <= i < j < |ks| ==> Less(ks[i], ks[j])
  }

  /** The keys of a TreeMap<String, _> in iteration order. */
  method SortedKeys<V>(m: map<string, V>) returns (ks: seq<string>)
    ensures StrictlySorted(ks)
    ensures forall k :: k in ks <==> k in m
    ensures |ks| == |m|
  {
    ks := [];
    var rest := m.Keys;
    while rest != {}
      invariant rest <= m.Keys
      invariant forall k :: k in ks <==> k in m.Keys - rest
      invariant StrictlySorted(ks)
      invariant forall i, k :: 0 <= i < |ks| && k in rest ==> Less(ks[i], k)
      invariant |ks| + |rest| == |m.Keys|
      decreases |rest|
    {
      MinimumExists(rest);
      var k :| k in rest && forall j :: j in rest ==> !Less(j, k);
      forall j | j in rest - {k} ensures Less(k, j) {
        LessTotal(k, j);
      }
      ks := ks + [k];
      rest := rest - {k};
    }
    assert m.Keys - rest == m.Keys;
  }

  // ---------------------------------------------------------------------
  // Integer.parseInt(String) and String.valueOf(int), radix 10

  const IntMin: int := -0x8000_0000
  const IntMax: int := 0x7fff_ffff

  predicate IsInt32(n: int) { IntMin <= n <= IntMax }

  predicate IsDigit(c: char) { '0' <= c <= '9' }

  predicate AllDigits(s: string) { forall i :: 0 <= i < |s| ==> IsDigit(s[i]) }

  /** The value of a string of decimal digits, most significant first. */
  function DigitsValue(s: string): nat
    requires AllDigits(s)
  {
    if s == [] then 0
    else DigitsValue(s[..|s| - 1]) * 10 + (s[|s| - 1] as int - '0' as int)
  }

  /** What follows one leading sign, if there is one. */
  function Body(s: string): string
  {
    if s != [] && (s[0] == '-' || s[0] == '+') then s[1..] else s
  }

  /** The value of a sign and digits: negative after a '-'. */
  function Signed(s: string): int
    requires AllDigits(Body(s))
  {
    if s != [] && s[0] == '-' then -(DigitsValue(Body(s)) as int) else DigitsValue(Body(s))
  }

  /** Integer.parseInt: an optional '+' or '-', then one or more decimal
      digits, and a value that fits in 32 bits; anything else is a
      NumberFormatException, here None. */
  function ParseInt(s: string): (r: Option<int>)
    ensures r.Some? <==> Body(s) != [] && AllDigits(Body(s)) && IsInt32(Signed(s))
    ensures r.Some? ==> r.value == Signed(s)
    ensures r.Some? ==> IsInt32(r.value)
    ensures r.Some? ==> s != [] && (IsDigit(s[0]) || s[0] == '-' || s[0] == '+')
    ensures r.Some? && s[0] == '-' ==> r.value <= 0
    ensures r.Some? && s[0] != '-' ==> r.value >= 0
  {
    if s == [] || Body(s) == [] || !AllDigits(Body(s)) then None
    else if IsInt32(Signed(s)) then Some(Signed(s))
    else None
  }

  function DigitChar(d: nat): (c: char)
    requires d < 10
    ensures IsDigit(c) && c as int - '0' as int == d
  {
    ('0' as int + d) as char
  }

  function NatToDigits(n: nat): string
  {
    if n < 10 then [DigitChar(n)] else NatToDigits(n / 10) + [DigitChar(n % 10)]
  }

  /** String.valueOf(int). */
  function IntToString(n: int): (s: string)
  {
    if n < 0 then "-" + NatToDigits(-n) else NatToDigits(n)
  }

  lemma {:induction false} NatToDigitsValue(n: nat)
    ensures NatToDigits(n) != [] && AllDigits(NatToDigits(n))
    ensures DigitsValue(NatToDigits(n)) == n
  {
    var s := NatToDigits(n);
    if n >= 10 {
      NatToDigitsValue(n / 10);
      assert s[..|s| - 1] == NatToDigits(n / 10);
    }
  }

  /** Parsing what String.valueOf printed gives the number back. */
  lemma ParseIntOfIntToString(n: int)
    requires IsInt32(n)
    ensures ParseInt(IntToString(n)) == Some(n)
  {
    var digits := NatToDigits(if n < 0 then -n else n);
    NatToDigitsValue(if n < 0 then -n else n);
    var s := IntToString(n);
    if n < 0 {
      assert s[1..] == digits;
    }
  }
}
