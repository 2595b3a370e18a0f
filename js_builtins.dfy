/** The JavaScript built-ins the three components rely on, given exact
    Dafny meanings: truthiness of possibly-undefined strings, template
    interpolation, `Array.prototype.indexOf` (and `findIndex` with a strict
    equality test, which is the same search), `Array.prototype.splice` for
    removing one element or inserting one element, `filter(Boolean)` on
    strings, and `Array.prototype.join` together with the matching split. */
module JsBuiltins {

  datatype Option<+T> = None | Some(value: T)

  /** A string-valued property that may be `undefined` is truthy exactly
      when it is present and not the empty string. */
  predicate Truthy(v: Option<string>) {
    v.Some? && v.value != ""
  }

  /** `a || b` on two possibly-undefined strings: the left operand when it
      is truthy, otherwise the right one; truthy exactly when either
      operand is. */
  function Or(a: Option<string>, b: Option<string>): (r: Option<string>)
    ensures r == a || r == b
    ensures Truthy(a) ==> r == a
    ensures !Truthy(a) ==> r == b
    ensures Truthy(r) <==> Truthy(a) || Truthy(b)
  {
    if Truthy(a) then a else b
  }

  /** `${v}` in a template literal: `undefined` prints as "undefined", so
      the text is empty only for the empty string. */
  function Interpolate(v: Option<string>): (r: string)
    ensures v.Some? ==> r == v.value
    ensures v.None? ==> r == "undefined"
    ensures r == "" <==> v == Some("")
  {
    if v.Some? then v.value else "undefined"
  }

  /** `s.indexOf(x)`: the first position holding `x`, or -1. */
  function IndexOf<T(==)>(s: seq<T>, x: T): (i: int)
    ensures -1 <= i < |s|
    ensures i == -1 <==> x !in s
    ensures 0 <= i ==> s[i] == x && x !in s[..i]
  {
    if s == [] then -1
    else if s[0] == x then 0
    else
      var j := IndexOf(s[1..], x);
      if j == -1 then -1
      else
        assert s[..j + 1] == [s[0]] + s[1..][..j];
        j + 1
  }

  /** The position a `splice(start, …)` call acts on in an array of length
      `len`: a negative start counts from the end and is clamped at 0, a
      start past the end is clamped to the length. */
  function RelativeStart(start: int, len: nat): (k: nat)
    ensures k <= len
    ensures 0 <= start <= len ==> k == start
    ensures -(len as int) <= start < 0 ==> k == len + start
    ensures start < -(len as int) ==> k == 0
    ensures start > len ==> k == len
  {
    if start < 0 then (if len + start < 0 then 0 else len + start)
    else if start > len then len
    else start
  }

  /** `s` with the element at `i` taken out. */
  function RemoveAt<T>(s: seq<T>, i: nat): (r: seq<T>)
    requires i < |s|
    ensures |r| == |s| - 1
    ensures forall j :: 0 <= j < i ==> r[j] == s[j]
    ensures forall j :: i <= j < |r| ==> r[j] == s[j + 1]
  {
    s[..i] + s[i + 1..]
  }

  /** The array after `s.splice(start, 1)`. */
  function SpliceRemoveOne<T>(s: seq<T>, start: int): (r: seq<T>)
    ensures var k := RelativeStart(start, |s|);
      if k < |s| then r == RemoveAt(s, k) && multiset(r) + multiset{s[k]} == multiset(s)
      else r == s
  {
    var k := RelativeStart(start, |s|);
    if k < |s| then
      assert s == s[..k] + [s[k]] + s[k + 1..];
      RemoveAt(s, k)
    else s
  }

  /** The array after `s.splice(start, 0, x)`. */
  function SpliceInsertOne<T>(s: seq<T>, start: int, x: T): (r: seq<T>)
    ensures var k := RelativeStart(start, |s|);
      && |r| == |s| + 1
      && r[k] == x
      && RemoveAt(r, k) == s
      && multiset(r) == multiset(s) + multiset{x}
  {
    var k := RelativeStart(start, |s|);
    assert s == s[..k] + s[k..];
    var r := s[..k] + [x] + s[k..];
    assert RemoveAt(r, k) == s;
    r
  }

  /** `s.splice(0, 1)` on a non-empty array acts as `shift`. */
  lemma SpliceRemoveFirst<T>(s: seq<T>)
    requires s != []
    ensures SpliceRemoveOne(s, 0) == s[1..]
  {
    assert s[..0] + s[1..] == s[1..];
  }

  /** `s.splice(s.length, 0, x)` acts as `push`. */
  lemma SpliceInsertAtEnd<T>(s: seq<T>, x: T)
    ensures SpliceInsertOne(s, |s|, x) == s + [x]
  {
    assert s[|s|..] == [];
    assert s[..|s|] == s;
  }

  /** `x` is a truthy value of `vs`. */
  predicate IsTruthyValueOf(x: string, vs: seq<Option<string>>) {
    vs != [] && ((Truthy(vs[0]) && vs[0].value == x) || IsTruthyValueOf(x, vs[1..]))
  }

  /** `vs.filter(Boolean)` on possibly-undefined strings: the truthy
      values, in order. Every truthy value is kept, and every value kept is
      a truthy value of the input. */
  function TruthyValues(vs: seq<Option<string>>): (r: seq<string>)
    ensures |r| <= |vs|
    ensures forall i :: 0 <= i < |r| ==> r[i] != ""
    ensures forall i :: 0 <= i < |vs| && Truthy(vs[i]) ==> vs[i].value in r
    ensures forall k :: 0 <= k < |r| ==> IsTruthyValueOf(r[k], vs)
  {
    if vs == [] then []
    else (if Truthy(vs[0]) then [vs[0].value] else []) + TruthyValues(vs[1..])
  }

  /** A truthy value of `vs` sits at some position of `vs`. */
  lemma {:induction false} TruthyValueOfIndex(x: string, vs: seq<Option<string>>)
    requires IsTruthyValueOf(x, vs)
    ensures exists i :: 0 <= i < |vs| && Truthy(vs[i]) && vs[i].value == x
  {
    if !(Truthy(vs[0]) && vs[0].value == x) {
      TruthyValueOfIndex(x, vs[1..]);
      var j :| 0 <= j < |vs[1..]| && Truthy(vs[1..][j]) && vs[1..][j].value == x;
      assert vs[j + 1] == vs[1..][j];
    }
  }

  /** The one-value case of the filter. */
  lemma TruthyValuesSingle(v: Option<string>)
    ensures TruthyValues([v]) == if Truthy(v) then [v.value] else []
  {
    assert [v][1..] == [];
  }

  /** The filter keeps the input order: filtering a concatenation is the
      concatenation of the filtered parts. */
  lemma {:induction false} TruthyValuesAppend(a: seq<Option<string>>, b: seq<Option<string>>)
    ensures TruthyValues(a + b) == TruthyValues(a) + TruthyValues(b)
  {
    if a == [] {
      assert a + b == b;
    } else {
      assert (a + b)[1..] == a[1..] + b;
      TruthyValuesAppend(a[1..], b);
    }
  }

  /** `xs.join(sep)`: the pieces with `sep` between neighbours; the joined
      string starts with the first piece. */
  function Join(xs: seq<string>, sep: string): (j: string)
    ensures xs == [] ==> j == ""
    ensures xs != [] ==> |xs[0]| <= |j| && j[..|xs[0]|] == xs[0]
  {
    if xs == [] then ""
    else if |xs| == 1 then xs[0]
    else xs[0] + sep + Join(xs[1..], sep)
  }

  /** `s.split(c)` for a one-character separator: the maximal pieces of `s`
      that do not contain `c`, in order. */
  function Split(s: string, c: char): (r: seq<string>)
    ensures |r| >= 1
    ensures forall i :: 0 <= i < |r| ==> c !in r[i]
    decreases |s|
  {
    var i := IndexOf(s, c);
    if i == -1 then [s] else [s[..i]] + Split(s[i + 1..], c)
  }

  /** Splitting a joined list recovers it when no piece contains the
      separator. */
  lemma {:induction false} SplitJoin(xs: seq<string>, c: char)
    requires |xs| >= 1
    requires forall i :: 0 <= i < |xs| ==> c !in xs[i]
    ensures Split(Join(xs, [c]), c) == xs
  {
    if |xs| == 1 {
      assert IndexOf(xs[0], c) == -1;
    } else {
      var head, rest := xs[0], Join(xs[1..], [c]);
      var s := head + [c] + rest;
      assert Join(xs, [c]) == s;
      IndexOfAfterPrefix(head, c, rest);
      assert s[..|head|] == head;
      assert s[|head| + 1..] == rest;
      assert Split(s, c) == [head] + Split(rest, c);
      SplitJoin(xs[1..], c);
      assert xs == [head] + xs[1..];
    }
  }

  /** Joining the pieces of a split restores the string. */
  lemma {:induction false} JoinSplit(s: string, c: char)
    ensures Join(Split(s, c), [c]) == s
    decreases |s|
  {
    var i := IndexOf(s, c);
    if i == -1 {
      assert Split(s, c) == [s];
    } else {
      var head, tail := s[..i], s[i + 1..];
      assert s == head + [c] + tail;
      var r := Split(tail, c);
      assert Split(s, c) == [head] + r;
      JoinSplit(tail, c);
      JoinCons(head, r, [c]);
    }
  }

  /** Joining a longer list puts the separator after the first piece. */
  lemma JoinCons(head: string, r: seq<string>, sep: string)
    requires r != []
    ensures Join([head] + r, sep) == head + sep + Join(r, sep)
  {
    assert ([head] + r)[1..] == r;
  }

  /** Searching `p + [c] + q` for `c` stops right after `p` when `p` has no `c`. */
  lemma IndexOfAfterPrefix(p: string, c: char, q: string)
    requires c !in p
    ensures IndexOf(p + [c] + q, c) == |p|
  {
    var s := p + [c] + q;
    var i := IndexOf(s, c);
    assert s[|p|] == c;
  }
}
