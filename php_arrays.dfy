/**
  PHP's ordered arrays with string values, as far as the client uses them:
  the pending GET parameters (merged with `array_merge`) and the cookie table
  (filled with `$cookies[$name] = $value`). A key is an integer or a string;
  PHP stores a string that spells a canonical decimal integer as that integer.
 */
module PhpArrays {
  import opened Wrappers

  datatype Key = IntKey(n: int) | StrKey(s: string)

  // ----- decimal integers --------------------------------------------------

  predicate IsDigit(c: char) {
    '0' <= c <= '9'
  }

  predicate AllDigits(s: string) {
    forall i :: 0 <= i < |s| ==> IsDigit(s[i])
  }

  function DigitValue(c: char): nat
    requires IsDigit(c)
  {
    c as int - '0' as int
  }

  function DigitChar(d: nat): (c: char)
    requires d < 10
    ensures IsDigit(c) && DigitValue(c) == d
  {
    (d + '0' as int) as char
  }

  /** The number a string of decimal digits spells. */
  function DigitsValue(s: string): nat
    requires AllDigits(s)
    decreases |s|
  {
    if s == [] then 0 else DigitsValue(s[..|s| - 1]) * 10 + DigitValue(s[|s| - 1])
  }

  /** Digits with no superfluous leading zero. */
  predicate IsCanonicalNat(s: string) {
    |s| >= 1 && AllDigits(s) && (s[0] == '0' ==> |s| == 1)
  }

  /** The decimal digits of `n`. */
  function Digits(n: nat): (s: string)
    ensures IsCanonicalNat(s)
    ensures DigitsValue(s) == n
    decreases n
  {
    if n < 10 then [DigitChar(n)]
    else
      var s := Digits(n / 10) + [DigitChar(n % 10)];
      assert s[..|s| - 1] == Digits(n / 10);
      s
  }

  /** PHP's decimal rendering of an integer. */
  function Decimal(n: int): string {
    if n < 0 then "-" + Digits(-n) else Digits(n)
  }

  /**
    The strings PHP turns into integer keys: "0", "42", "-7", but neither
    "007", "-0", "+1" nor "1.0".
   */
  predicate IsIntegerString(s: string) {
    IsCanonicalNat(s) || (|s| >= 2 && s[0] == '-' && s[1] != '0' && IsCanonicalNat(s[1..]))
  }

  function IntegerValue(s: string): int
    requires IsIntegerString(s)
  {
    if s[0] == '-' then -(DigitsValue(s[1..]) as int) else DigitsValue(s)
  }

  lemma {:induction false} DigitsValueAtLeastLead(s: string)
    requires |s| >= 1 && AllDigits(s)
    ensures DigitsValue(s) >= DigitValue(s[0])
    decreases |s|
  {
    if |s| > 1 {
      DigitsValueAtLeastLead(s[..|s| - 1]);
    }
  }

  /** A canonical digit string is the rendering of the number it spells. */
  lemma {:induction false} DigitsOfValue(s: string)
    requires IsCanonicalNat(s)
    ensures Digits(DigitsValue(s)) == s
    decreases |s|
  {
    var last := s[|s| - 1];
    if |s| == 1 {
      assert DigitChar(DigitValue(last)) == last;
      assert [last] == s;
    } else {
      var pre := s[..|s| - 1];
      assert pre[0] == s[0];
      DigitsOfValue(pre);
      DigitsValueAtLeastLead(pre);
      var v := DigitsValue(s);
      assert v == DigitsValue(pre) * 10 + DigitValue(last);
      assert v / 10 == DigitsValue(pre) && v % 10 == DigitValue(last);
      assert DigitChar(DigitValue(last)) == last;
      assert pre + [last] == s;
    }
  }

  // ----- keys --------------------------------------------------------------

  /** The text of a key, as `http_build_query` and string conversion print it. */
  function KeyText(k: Key): string {
    match k
    case IntKey(n) => Decimal(n)
    case StrKey(s) => s
  }

  /** PHP never stores an integer-like string as a string key. */
  predicate ValidKey(k: Key) {
    k.StrKey? ==> !IsIntegerString(k.s)
  }

  type ArrayKey = k: Key | ValidKey(k) witness IntKey(0)

  /** An integer string is the rendering of its value. */
  lemma DecimalOfIntegerString(s: string)
    requires IsIntegerString(s)
    ensures Decimal(IntegerValue(s)) == s
  {
    if s[0] == '-' {
      var d := s[1..];
      DigitsOfValue(d);
      DigitsValueAtLeastLead(d);
      assert DigitsValue(d) > 0;
      assert "-" + d == s;
    } else {
      DigitsOfValue(s);
    }
  }

  /** The key PHP stores for the string `s` (`$a[$s] = ...`): it prints back as `s`. */
  function NormalizeKey(s: string): (k: ArrayKey)
    ensures KeyText(k) == s
    ensures k.IntKey? <==> IsIntegerString(s)
  {
    if IsIntegerString(s) then
      DecimalOfIntegerString(s);
      IntKey(IntegerValue(s))
    else StrKey(s)
  }

  /** Printing a key and reading it back as an array key gives the same key. */
  lemma NormalizeKeyText(k: ArrayKey)
    ensures NormalizeKey(KeyText(k)) == k
  {
    if k.IntKey? {
      var n := k.n;
      if n < 0 {
        var d := Digits(-n);
        assert ("-" + d)[1..] == d;
      }
    }
  }

  // ----- ordered arrays ----------------------------------------------------

  type Entry = (ArrayKey, string)

  predicate UniqueKeys(a: seq<Entry>) {
    forall i, j :: 0 <= i < j < |a| ==> a[i].0 != a[j].0
  }

  /** A PHP array of strings: entries in insertion order, each key at most once. */
  type PhpArray = a: seq<Entry> | UniqueKeys(a)

  /** `$a[$k] ?? null` */
  function Get(a: seq<Entry>, k: ArrayKey): (r: Option<string>)
    ensures r.None? <==> forall i :: 0 <= i < |a| ==> a[i].0 != k
    decreases |a|
  {
    if a == [] then None
    else if a[0].0 == k then Some(a[0].1)
    else
      var r := Get(a[1..], k);
      assert forall i :: 1 <= i < |a| ==> a[i] == a[1..][i - 1];
      r
  }

  /** The entry stored at position `i` is what a lookup of its key finds. */
  lemma {:induction false} GetAt(a: PhpArray, i: nat)
    requires i < |a|
    ensures Get(a, a[i].0) == Some(a[i].1)
    decreases i
  {
    if i > 0 {
      assert a[0].0 != a[i].0;
      var tail: PhpArray := a[1..];
      GetAt(tail, i - 1);
    }
  }

  lemma {:induction false} GetAppend(a: seq<Entry>, e: Entry, k: ArrayKey)
    requires k != e.0
    ensures Get(a + [e], k) == Get(a, k)
    decreases |a|
  {
    if a != [] && a[0].0 != k {
      assert (a + [e])[1..] == a[1..] + [e];
      GetAppend(a[1..], e, k);
    }
  }

  /** The position of a key that is present. */
  function IndexOf(a: seq<Entry>, k: ArrayKey): (i: nat)
    requires Get(a, k).Some?
    ensures i < |a| && a[i].0 == k
    decreases |a|
  {
    if a[0].0 == k then 0 else IndexOf(a[1..], k) + 1
  }

  /** In an array with unique keys, a lookup finds the one entry carrying the key. */
  lemma GetUnique(a: PhpArray, k: ArrayKey, i: nat)
    requires i < |a| && a[i].0 == k
    ensures Get(a, k) == Some(a[i].1)
  {
    GetAt(a, i);
  }

  /**
    `$a[$k] = $v`: an existing key keeps its position and gets the new value;
    a new key is appended at the end.
   */
  function Put(a: PhpArray, k: ArrayKey, v: string): (r: PhpArray)
    ensures Get(r, k) == Some(v)
    ensures forall k' :: k' != k ==> Get(r, k') == Get(a, k')
    ensures Get(a, k).Some? ==>
      |r| == |a| && forall i :: 0 <= i < |a| ==> r[i] == (a[i].0, if a[i].0 == k then v else a[i].1)
    ensures Get(a, k).None? ==> r == a + [(k, v)]
  {
    if Get(a, k).Some? then
      var j := IndexOf(a, k);
      var r: PhpArray := a[j := (k, v)];
      GetUnique(r, k, j);
      assert forall i :: 0 <= i < |a| && a[i].0 == k ==> i == j;
      forall k' | k' != k ensures Get(r, k') == Get(a, k') {
        if i :| 0 <= i < |a| && a[i].0 == k' {
          GetUnique(r, k', i);
          GetUnique(a, k', i);
        }
      }
      r
    else
      var r: PhpArray := a + [(k, v)];
      GetUnique(r, k, |a|);
      forall k' | k' != k ensures Get(r, k') == Get(a, k') {
        GetAppend(a, (k, v), k');
      }
      r
  }

  // ----- integer-keyed entries and array_merge -----------------------------

  /** The values stored under integer keys, in array order. */
  function Ints(a: seq<Entry>): seq<string>
    decreases |a|
  {
    if a == [] then []
    else Ints(a[..|a| - 1]) + (if a[|a| - 1].0.IntKey? then [a[|a| - 1].1] else [])
  }

  /** An integer key at position `i` counts the integer keys before it. */
  predicate NumberedAt(a: seq<Entry>, i: nat)
    requires i < |a|
  {
    a[i].0.IntKey? ==> a[i].0.n == |Ints(a[..i])|
  }

  /** The integer keys are 0, 1, 2, ... in order of appearance. */
  predicate Renumbered(a: seq<Entry>) {
    forall i :: 0 <= i < |a| ==> NumberedAt(a, i)
  }

  lemma {:induction false} IntsConcat(a: seq<Entry>, b: seq<Entry>)
    ensures Ints(a + b) == Ints(a) + Ints(b)
    decreases |b|
  {
    if b == [] {
      assert a + b == a;
    } else {
      var b' := b[..|b| - 1];
      assert (a + b)[..|a + b| - 1] == a + b';
      IntsConcat(a, b');
    }
  }

  lemma IntsPrefixBelow(a: seq<Entry>, i: nat)
    requires i < |a| && a[i].0.IntKey?
    ensures |Ints(a[..i])| < |Ints(a)|
  {
    assert a == a[..i] + ([a[i]] + a[i + 1..]);
    IntsConcat(a[..i], [a[i]] + a[i + 1..]);
    IntsConcat([a[i]], a[i + 1..]);
    assert Ints([a[i]]) == Ints([]) + [a[i].1];
  }

  /** Arrays with integer keys at the same positions, holding the same values, agree on `Ints`. */
  lemma {:induction false} IntsAgree(a: seq<Entry>, b: seq<Entry>)
    requires |a| == |b|
    requires forall i :: 0 <= i < |a| ==> a[i].0.IntKey? == b[i].0.IntKey? && (a[i].0.IntKey? ==> a[i].1 == b[i].1)
    ensures Ints(a) == Ints(b)
    decreases |a|
  {
    if a != [] {
      IntsAgree(a[..|a| - 1], b[..|b| - 1]);
    }
  }

  /** `$a[] = $v` on an array whose integer keys are 0 .. n-1. */
  function AppendInt(a: PhpArray, v: string): (r: PhpArray)
    requires Renumbered(a)
    ensures r == a + [(IntKey(|Ints(a)|), v)]
    ensures Renumbered(r)
    ensures Ints(r) == Ints(a) + [v]
    ensures forall k: ArrayKey :: k.StrKey? ==> Get(r, k) == Get(a, k)
  {
    var e: Entry := (IntKey(|Ints(a)|), v);
    forall i | 0 <= i < |a| ensures a[i].0 != e.0 {
      assert NumberedAt(a, i);
      if a[i].0.IntKey? { IntsPrefixBelow(a, i); }
    }
    var r := a + [e];
    assert r[..|a|] == a;
    forall i | 0 <= i < |r| ensures NumberedAt(r, i) {
      if i < |a| {
        assert r[..i] == a[..i];
        assert NumberedAt(a, i);
      }
    }
    forall k: ArrayKey | k.StrKey? ensures Get(r, k) == Get(a, k) {
      GetAppend(a, e, k);
    }
    r
  }

  /** Storing under a string key leaves the integer-keyed entries as they were. */
  lemma PutStrKeepsInts(a: PhpArray, k: ArrayKey, v: string)
    requires k.StrKey? && Renumbered(a)
    ensures Renumbered(Put(a, k, v)) && Ints(Put(a, k, v)) == Ints(a)
  {
    var r := Put(a, k, v);
    if Get(a, k).Some? {
      forall i | 0 <= i <= |a| ensures Ints(r[..i]) == Ints(a[..i]) {
        IntsAgree(r[..i], a[..i]);
      }
      assert r[..|r|] == r && a[..|a|] == a;
      forall i | 0 <= i < |r| ensures NumberedAt(r, i) {
        assert NumberedAt(a, i);
      }
    } else {
      assert r[..|a|] == a;
      forall i | 0 <= i < |r| ensures NumberedAt(r, i) {
        if i < |a| {
          assert r[..i] == a[..i];
          assert NumberedAt(a, i);
        }
      }
    }
  }

  /** One entry of `array_merge`'s loop: an integer key appends the value, a string key stores it. */
  function Step(acc: PhpArray, e: Entry): (r: PhpArray)
    requires Renumbered(acc)
    ensures Renumbered(r)
    ensures Ints(r) == Ints(acc) + (if e.0.IntKey? then [e.1] else [])
    ensures forall k: ArrayKey :: k.StrKey? ==> Get(r, k) == if k == e.0 then Some(e.1) else Get(acc, k)
    // an integer key is appended under the next number
    ensures e.0.IntKey? ==> r == acc + [(IntKey(|Ints(acc)|), e.1)]
    // a new string key is appended; a string key already present is overridden in place
    ensures e.0.StrKey? && Get(acc, e.0).None? ==> r == acc + [e]
    ensures e.0.StrKey? && Get(acc, e.0).Some? ==>
              |r| == |acc| && forall i :: 0 <= i < |acc| ==> r[i] == (acc[i].0, if acc[i].0 == e.0 then e.1 else acc[i].1)
    ensures |r| >= |acc| && r != []
  {
    if e.0.IntKey? then AppendInt(acc, e.1)
    else
      PutStrKeepsInts(acc, e.0, e.1);
      assert Ints(acc) + [] == Ints(acc);
      Put(acc, e.0, e.1)
  }

  /** The loop of `array_merge` over one input array, into the result built so far. */
  function MergeInto(acc: PhpArray, src: PhpArray): (r: PhpArray)
    requires Renumbered(acc)
    ensures Renumbered(r)
    decreases |src|
  {
    if src == [] then acc
    else
      var tail: PhpArray := src[1..];
      MergeInto(Step(acc, src[0]), tail)
  }

  lemma SplitFirstInts(src: seq<Entry>)
    requires src != []
    ensures Ints(src) == (if src[0].0.IntKey? then [src[0].1] else []) + Ints(src[1..])
  {
    assert src == [src[0]] + src[1..];
    IntsConcat([src[0]], src[1..]);
    assert Ints([src[0]]) == Ints([]) + (if src[0].0.IntKey? then [src[0].1] else []);
  }

  lemma SplitFirstGet(src: PhpArray, key: ArrayKey)
    requires src != []
    ensures Get(src, key) == if key == src[0].0 then Some(src[0].1) else Get(src[1..], key)
    ensures key == src[0].0 ==> Get(src[1..], key).None?
  {
    if key == src[0].0 {
      forall i | 0 <= i < |src[1..]| ensures src[1..][i].0 != key {
        assert src[1..][i] == src[i + 1];
      }
    }
  }

  lemma SeqAssoc<T>(x: seq<T>, y: seq<T>, z: seq<T>)
    ensures (x + y) + z == x + (y + z)
  {
  }

  lemma {:induction false} MergeIntoInts(acc: PhpArray, src: PhpArray)
    requires Renumbered(acc)
    ensures Ints(MergeInto(acc, src)) == Ints(acc) + Ints(src)
    decreases |src|
  {
    if src != [] {
      var tail: PhpArray := src[1..];
      assert MergeInto(acc, src) == MergeInto(Step(acc, src[0]), tail);
      MergeIntoInts(Step(acc, src[0]), tail);
      SplitFirstInts(src);
      SeqAssoc(Ints(acc), if src[0].0.IntKey? then [src[0].1] else [], Ints(tail));
    }
  }

  lemma {:induction false} MergeIntoGet(acc: PhpArray, src: PhpArray, key: ArrayKey)
    requires Renumbered(acc) && key.StrKey?
    ensures Get(MergeInto(acc, src), key) == if Get(src, key).Some? then Get(src, key) else Get(acc, key)
    decreases |src|
  {
    if src != [] {
      var tail: PhpArray := src[1..];
      var next := Step(acc, src[0]);
      assert MergeInto(acc, src) == MergeInto(next, tail);
      MergeIntoGet(next, tail, key);
      SplitFirstGet(src, key);
      assert Get(next, key) == if key == src[0].0 then Some(src[0].1) else Get(acc, key);
    }
  }

  lemma {:induction false} MergeIntoGrows(acc: PhpArray, src: PhpArray)
    requires Renumbered(acc)
    ensures |MergeInto(acc, src)| >= |acc|
    ensures src != [] ==> MergeInto(acc, src) != []
    decreases |src|
  {
    if src != [] {
      var tail: PhpArray := src[1..];
      assert MergeInto(acc, src) == MergeInto(Step(acc, src[0]), tail);
      MergeIntoGrows(Step(acc, src[0]), tail);
    }
  }

  // ----- the order of array_merge's result ---------------------------------

  /**
    `x` is `y` up to the numbering of its integer keys: the same values in
    the same order, the same string keys, and integer keys at the same places.
   */
  predicate SameUpToNumbering(x: seq<Entry>, y: seq<Entry>) {
    && |x| == |y|
    && forall i :: 0 <= i < |x| ==>
         x[i].1 == y[i].1 && x[i].0.IntKey? == y[i].0.IntKey? && (x[i].0.StrKey? ==> x[i].0 == y[i].0)
  }

  lemma SameUpToNumberingTrans(x: seq<Entry>, y: seq<Entry>, z: seq<Entry>)
    requires SameUpToNumbering(x, y) && SameUpToNumbering(y, z)
    ensures SameUpToNumbering(x, z)
  {
  }

  /** Two renumbered arrays of the same shape are equal: the numbering is determined by the order. */
  lemma RenumberingUnique(x: seq<Entry>, y: seq<Entry>)
    requires Renumbered(x) && Renumbered(y) && SameUpToNumbering(x, y)
    ensures x == y
  {
    forall i | 0 <= i < |x| ensures x[i] == y[i] {
      IntsAgree(x[..i], y[..i]);
      assert NumberedAt(x, i) && NumberedAt(y, i);
    }
  }

  /** The value an entry of `a` ends up with once `b` is merged in. */
  function Overridden(e: Entry, b: seq<Entry>): string {
    if e.0.StrKey? && Get(b, e.0).Some? then Get(b, e.0).value else e.1
  }

  /** The entries of `a`, in place, a string key that `b` also has taking `b`'s value. */
  function Override(a: seq<Entry>, b: seq<Entry>): seq<Entry> {
    seq(|a|, i requires 0 <= i < |a| => (a[i].0, Overridden(a[i], b)))
  }

  /** The entries of `b` appended after those of `a`, in `b`'s order: its integer keys and the string keys `a` lacks. */
  function Fresh(a: seq<Entry>, b: seq<Entry>): seq<Entry>
    decreases |b|
  {
    if b == [] then []
    else (if b[0].0.IntKey? || Get(a, b[0].0).None? then [b[0]] else []) + Fresh(a, b[1..])
  }

  lemma {:induction false} FreshOfEmpty(b: seq<Entry>)
    ensures Fresh([], b) == b
    decreases |b|
  {
    if b != [] {
      FreshOfEmpty(b[1..]);
      assert [b[0]] + b[1..] == b;
    }
  }

  /** Which entries of `b` are fresh depends only on which of `b`'s string keys the array holds. */
  lemma {:induction false} FreshAgree(x: seq<Entry>, y: seq<Entry>, b: seq<Entry>)
    requires forall i :: 0 <= i < |b| && b[i].0.StrKey? ==> (Get(x, b[i].0).None? <==> Get(y, b[i].0).None?)
    ensures Fresh(x, b) == Fresh(y, b)
    decreases |b|
  {
    if b != [] {
      assert forall i :: 0 <= i < |b[1..]| ==> b[1..][i] == b[i + 1];
      FreshAgree(x, y, b[1..]);
    }
  }

  /** Later entries of the merged array never carry the first entry's key, so the step leaves their freshness alone. */
  lemma StepFresh(acc: PhpArray, src: PhpArray)
    requires Renumbered(acc) && src != []
    ensures Fresh(Step(acc, src[0]), src[1..]) == Fresh(acc, src[1..])
  {
    var tail := src[1..];
    var next := Step(acc, src[0]);
    forall i | 0 <= i < |tail| && tail[i].0.StrKey? ensures Get(next, tail[i].0).None? <==> Get(acc, tail[i].0).None? {
      assert tail[i] == src[i + 1];
    }
    FreshAgree(next, acc, tail);
  }

  /** Entries whose key is not the first entry's key are overridden alike by the merged array and by its tail. */
  lemma OverrideTail(acc: seq<Entry>, src: PhpArray)
    requires src != []
    requires forall i :: 0 <= i < |acc| && acc[i].0.StrKey? ==> acc[i].0 != src[0].0
    ensures Override(acc, src[1..]) == Override(acc, src)
  {
    forall i | 0 <= i < |acc| ensures Override(acc, src[1..])[i] == Override(acc, src)[i] {
      SplitFirstGet(src, acc[i].0);
    }
  }

  /** A string key already present: the step overrides it in place, and it is not fresh. */
  lemma StepOrderInPlace(acc: PhpArray, src: PhpArray)
    requires Renumbered(acc) && src != [] && src[0].0.StrKey? && Get(acc, src[0].0).Some?
    ensures var next := Step(acc, src[0]);
            Override(next, src[1..]) + Fresh(next, src[1..]) == Override(acc, src) + Fresh(acc, src)
  {
    var e := src[0];
    var tail := src[1..];
    var next := Step(acc, e);
    StepFresh(acc, src);
    assert Fresh(acc, src) == Fresh(acc, tail);
    assert |next| == |acc|;
    forall i | 0 <= i < |acc| ensures Override(next, tail)[i] == Override(acc, src)[i] {
      var k := acc[i].0;
      SplitFirstGet(src, k);
      assert next[i] == (k, if k == e.0 then e.1 else acc[i].1);
      assert Overridden(next[i], tail) == Overridden(acc[i], src);
    }
    assert Override(next, tail) == Override(acc, src);
  }

  /** Replacing one entry by one that differs at most in its integer key keeps the shape. */
  lemma SameUpToNumberingAt(p: seq<Entry>, x: Entry, e: Entry, rest: seq<Entry>)
    requires x.1 == e.1 && x.0.IntKey? == e.0.IntKey? && (x.0.StrKey? ==> x.0 == e.0)
    ensures SameUpToNumbering(p + ([x] + rest), p + ([e] + rest))
  {
    var l, r := p + ([x] + rest), p + ([e] + rest);
    forall i | 0 <= i < |l| ensures l[i].1 == r[i].1 && l[i].0.IntKey? == r[i].0.IntKey? && (l[i].0.StrKey? ==> l[i].0 == r[i].0) {
      if i != |p| {
        assert l[i] == r[i];
      }
    }
  }

  lemma OverrideAppend(a: seq<Entry>, x: Entry, b: seq<Entry>)
    ensures Override(a + [x], b) == Override(a, b) + [(x.0, Overridden(x, b))]
  {
    assert forall i :: 0 <= i < |a| ==> (a + [x])[i] == a[i];
  }

  /** Appending the first entry of the merged array (renumbered if its key is an integer) keeps the shape. */
  lemma AppendedOrder(acc: seq<Entry>, src: PhpArray, x: Entry)
    requires src != [] && (src[0].0.IntKey? || Get(acc, src[0].0).None?)
    requires x.1 == src[0].1 && x.0.IntKey? == src[0].0.IntKey? && (x.0.StrKey? ==> x.0 == src[0].0)
    ensures SameUpToNumbering(Override(acc + [x], src[1..]) + Fresh(acc, src[1..]), Override(acc, src) + Fresh(acc, src))
  {
    var e, tail := src[0], src[1..];
    OverrideTail(acc, src);
    OverrideAppend(acc, x, tail);
    assert Overridden(x, tail) == x.1 by {
      SplitFirstGet(src, e.0);
    }
    var rest := Fresh(acc, tail);
    assert Fresh(acc, src) == [e] + rest;
    assert Override(acc + [x], tail) + rest == Override(acc, src) + ([x] + rest);
    SameUpToNumberingAt(Override(acc, src), x, e, rest);
  }

  /** An integer key or a new string key: the step appends it, and it is the first fresh entry. */
  lemma StepOrderAppend(acc: PhpArray, src: PhpArray)
    requires Renumbered(acc) && src != [] && (src[0].0.IntKey? || Get(acc, src[0].0).None?)
    ensures var next := Step(acc, src[0]);
            SameUpToNumbering(Override(next, src[1..]) + Fresh(next, src[1..]), Override(acc, src) + Fresh(acc, src))
  {
    var e := src[0];
    var x := if e.0.IntKey? then (IntKey(|Ints(acc)|), e.1) else e;
    assert Step(acc, e) == acc + [x];
    StepFresh(acc, src);
    AppendedOrder(acc, src, x);
  }

  /** One step of the merge loop keeps the order that `Override` and `Fresh` describe. */
  lemma StepOrder(acc: PhpArray, src: PhpArray)
    requires Renumbered(acc) && src != []
    ensures var next := Step(acc, src[0]);
            SameUpToNumbering(Override(next, src[1..]) + Fresh(next, src[1..]), Override(acc, src) + Fresh(acc, src))
  {
    if src[0].0.StrKey? && Get(acc, src[0].0).Some? {
      StepOrderInPlace(acc, src);
    } else {
      StepOrderAppend(acc, src);
    }
  }

  /** The merge loop keeps the entries already there in place and appends the fresh ones in order. */
  lemma {:induction false} MergeIntoOrder(acc: PhpArray, src: PhpArray)
    requires Renumbered(acc)
    ensures SameUpToNumbering(MergeInto(acc, src), Override(acc, src) + Fresh(acc, src))
    decreases |src|
  {
    if src == [] {
      assert Override(acc, src) + Fresh(acc, src) == acc;
    } else {
      var tail: PhpArray := src[1..];
      var next := Step(acc, src[0]);
      assert MergeInto(acc, src) == MergeInto(next, tail);
      MergeIntoOrder(next, tail);
      StepOrder(acc, src);
      SameUpToNumberingTrans(MergeInto(next, tail), Override(next, tail) + Fresh(next, tail),
                             Override(acc, src) + Fresh(acc, src));
    }
  }

  lemma OverrideSame(x: seq<Entry>, y: seq<Entry>, b: seq<Entry>)
    requires SameUpToNumbering(x, y)
    ensures SameUpToNumbering(Override(x, b), Override(y, b))
  {
    forall i | 0 <= i < |x| ensures Overridden(x[i], b) == Overridden(y[i], b) {
    }
  }

  lemma SameUpToNumberingConcat(x: seq<Entry>, y: seq<Entry>, t: seq<Entry>)
    requires SameUpToNumbering(x, y)
    ensures SameUpToNumbering(x + t, y + t)
  {
    forall i | 0 <= i < |x + t|
      ensures (x + t)[i].1 == (y + t)[i].1 && (x + t)[i].0.IntKey? == (y + t)[i].0.IntKey?
              && ((x + t)[i].0.StrKey? ==> (x + t)[i].0 == (y + t)[i].0)
    {
      if i >= |x| {
        assert (x + t)[i] == t[i - |x|] == (y + t)[i];
      }
    }
  }

  /** The first loop of `array_merge`, into an empty array, only renumbers `$a`'s integer keys. */
  lemma FirstPass(a: PhpArray)
    ensures SameUpToNumbering(MergeInto([], a), a)
    ensures forall k: ArrayKey :: k.StrKey? ==> Get(MergeInto([], a), k) == Get(a, k)
  {
    MergeIntoOrder([], a);
    FreshOfEmpty(a);
    assert Override([], a) + Fresh([], a) == a;
    forall k: ArrayKey | k.StrKey? ensures Get(MergeInto([], a), k) == Get(a, k) {
      MergeIntoGet([], a, k);
    }
  }

  /** The second loop of `array_merge` lays out `$a`'s entries, overridden in place, then `$b`'s fresh ones. */
  lemma SecondPass(first: PhpArray, a: PhpArray, b: PhpArray)
    requires Renumbered(first) && SameUpToNumbering(first, a)
    requires forall k: ArrayKey :: k.StrKey? ==> Get(first, k) == Get(a, k)
    ensures SameUpToNumbering(MergeInto(first, b), Override(a, b) + Fresh(a, b))
  {
    MergeIntoOrder(first, b);
    OverrideSame(first, a, b);
    FreshAgree(first, a, b);
    SameUpToNumberingConcat(Override(first, b), Override(a, b), Fresh(a, b));
    SameUpToNumberingTrans(MergeInto(first, b), Override(first, b) + Fresh(a, b), Override(a, b) + Fresh(a, b));
  }

  /**
    `array_merge($a, $b)` for arrays of strings: a later string key overrides
    an earlier one in place, while every integer-keyed value is appended and
    renumbered from 0.
   */
  function ArrayMerge(a: PhpArray, b: PhpArray): (r: PhpArray)
    ensures r == [] <==> a == [] && b == []
    ensures forall k: ArrayKey :: k.StrKey? ==> Get(r, k) == if Get(b, k).Some? then Get(b, k) else Get(a, k)
    ensures Ints(r) == Ints(a) + Ints(b)
    ensures Renumbered(r)
  {
    var first := MergeInto([], a);
    var r := MergeInto(first, b);
    assert Ints(r) == Ints(a) + Ints(b) by {
      MergeIntoInts([], a);
      assert Ints([]) + Ints(a) == Ints(a);
      MergeIntoInts(first, b);
    }
    assert r == [] <==> a == [] && b == [] by {
      MergeIntoGrows([], a);
      MergeIntoGrows(first, b);
    }
    forall k: ArrayKey | k.StrKey?
      ensures Get(r, k) == if Get(b, k).Some? then Get(b, k) else Get(a, k)
    {
      MergeIntoGet([], a, k);
      MergeIntoGet(first, b, k);
    }
    r
  }

  lemma ExampleLayout(a: PhpArray, b: PhpArray)
    requires a == [(StrKey("b"), "1"), (StrKey("a"), "2")] && b == [(IntKey(7), "x"), (StrKey("b"), "3")]
    ensures Override(a, b) + Fresh(a, b) == [(StrKey("b"), "3"), (StrKey("a"), "2"), (IntKey(7), "x")]
  {
    assert Get(b, a[0].0) == Some("3");
    assert Get(b, a[1].0) == None;
    assert Override(a, b) == [(StrKey("b"), "3"), (StrKey("a"), "2")];
    assert Get(a, b[1].0).Some?;
    assert b[1..] == [b[1]] && b[1..][1..] == [];
    assert Fresh(a, b[1..]) == [];
  }

  lemma ExampleRenumbered(x: seq<Entry>)
    requires x == [(StrKey("b"), "3"), (StrKey("a"), "2"), (IntKey(0), "x")]
    ensures Renumbered(x)
  {
    var pre := x[..2];
    var one := pre[..1];
    assert one[..0] == [];
    assert Ints(one) == [];
    assert Ints(pre) == [];
  }

  /**
    The order of `array_merge($a, $b)`: `$a`'s entries in place (a string
    key `$b` also has takes `$b`'s value), then `$b`'s integer-keyed entries
    and new string keys in `$b`'s order. With `Renumbered`, this determines
    the result (`RenumberingUnique`).
   */
  lemma ArrayMergeOrder(a: PhpArray, b: PhpArray)
    ensures SameUpToNumbering(ArrayMerge(a, b), Override(a, b) + Fresh(a, b))
  {
    assert ArrayMerge(a, b) == MergeInto(MergeInto([], a), b);
    FirstPass(a);
    SecondPass(MergeInto([], a), a, b);
  }

  /** An overridden key keeps its place, a new one goes at the end, and an integer key is renumbered. */
  lemma MergeOrderExample(a: PhpArray, b: PhpArray)
    requires a == [(StrKey("b"), "1"), (StrKey("a"), "2")] && b == [(IntKey(7), "x"), (StrKey("b"), "3")]
    ensures ArrayMerge(a, b) == [(StrKey("b"), "3"), (StrKey("a"), "2"), (IntKey(0), "x")]
  {
    var expected: seq<Entry> := [(a[0].0, "3"), (a[1].0, "2"), (IntKey(0), "x")];
    ArrayMergeOrder(a, b);
    ExampleLayout(a, b);
    ExampleRenumbered(expected);
    RenumberingUnique(ArrayMerge(a, b), expected);
  }
}
