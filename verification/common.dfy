/** Sequence and string helpers shared by every part of the TaskUp model:
    an Option type for JavaScript's optional fields, the `filter` and `map`
    idioms the stores use on their lists, and the string operations the
    forms use (`split`, `trim`, `toLowerCase`). */
module Common {

  /** An optional value; `None` stands for a field that is `undefined`. */
  datatype Option<T> = None | Some(value: T) {
    /** `x ?? default` */
    function GetOr(default: T): T {
      match this
      case Some(v) => v
      case None => default
    }

    /** The value when there is one, `other` otherwise. */
    function OrElse(other: Option<T>): Option<T> {
      if Some? then this else other
    }
  }

  /** No element occurs twice. */
  ghost predicate NoDup<T>(s: seq<T>) {
    forall i, j :: 0 <= i < j < |s| ==> s[i] != s[j]
  }

  // ---------------------------------------------------------------------
  // Array.prototype.filter and Array.prototype.map
  // ---------------------------------------------------------------------

  /** The elements of `s` that satisfy `keep`, in their original order. */
  function Filter<T>(s: seq<T>, keep: T -> bool): (r: seq<T>)
    ensures |r| <= |s|
    ensures forall x :: x in r ==> x in s && keep(x)
    ensures forall x :: x in s && keep(x) ==> x in r
  {
    if s == [] then []
    else (if keep(s[0]) then [s[0]] else []) + Filter(s[1..], keep)
  }

  /** One step of `Filter`, for callers that build lists front to back. */
  lemma FilterCons<T>(x: T, s: seq<T>, keep: T -> bool)
    ensures Filter([x] + s, keep) == (if keep(x) then [x] else []) + Filter(s, keep)
  {
    assert ([x] + s)[1..] == s;
  }

  /** Filtering distributes over concatenation: the relative order of the
      kept elements is the order they had in `s`. */
  lemma {:induction false} FilterConcat<T>(a: seq<T>, b: seq<T>, keep: T -> bool)
    ensures Filter(a + b, keep) == Filter(a, keep) + Filter(b, keep)
  {
    if a == [] {
      assert a + b == b;
    } else {
      assert (a + b)[1..] == a[1..] + b;
      FilterConcat(a[1..], b, keep);
    }
  }

  /** Filtering with one test the elements of `[x]`. */
  lemma FilterOne<T>(x: T, keep: T -> bool)
    ensures Filter([x], keep) == if keep(x) then [x] else []
  {
    assert [x][1..] == [];
  }

  /** Two filters can be applied in either order. */
  lemma {:induction false} FilterCommute<T>(s: seq<T>, p: T -> bool, q: T -> bool)
    ensures Filter(Filter(s, p), q) == Filter(Filter(s, q), p)
  {
    if s != [] {
      var x := s[0];
      assert s == [x] + s[1..];
      FilterCommute(s[1..], p, q);
      FilterCons(x, s[1..], p);
      FilterCons(x, s[1..], q);
      FilterConcat(if p(x) then [x] else [], Filter(s[1..], p), q);
      FilterConcat(if q(x) then [x] else [], Filter(s[1..], q), p);
      FilterOne(x, p);
      FilterOne(x, q);
    }
  }

  /** Filtering a list whose elements all pass leaves it unchanged. */
  lemma {:induction false} FilterKeepsAll<T>(s: seq<T>, keep: T -> bool)
    requires forall x :: x in s ==> keep(x)
    ensures Filter(s, keep) == s
  {
    if s != [] {
      FilterKeepsAll(s[1..], keep);
    }
  }

  /** Filtering with a predicate that holds of nothing in `s` gives []. */
  lemma {:induction false} FilterDropsAll<T>(s: seq<T>, keep: T -> bool)
    requires forall x :: x in s ==> !keep(x)
    ensures Filter(s, keep) == []
  {
    if s != [] {
      FilterDropsAll(s[1..], keep);
    }
  }

  /** How many elements of `s` satisfy `p` (`s.filter(p).length`). */
  function Count<T>(s: seq<T>, p: T -> bool): (n: nat)
    ensures n <= |s|
  {
    |Filter(s, p)|
  }

  /** Counting over a list extended by one element. */
  lemma CountSnoc<T>(s: seq<T>, x: T, p: T -> bool)
    ensures Count(s + [x], p) == Count(s, p) + (if p(x) then 1 else 0)
  {
    FilterConcat(s, [x], p);
    assert Filter([x], p) == (if p(x) then [x] else []) + Filter([x][1..], p);
  }

  /** `s.map(x => hit(x) ? f(x) : x)`: the elements that satisfy `hit` are
      replaced by their image under `f`, all others are kept, in place. */
  function MapWhere<T>(s: seq<T>, hit: T -> bool, f: T -> T): (r: seq<T>)
    ensures |r| == |s|
    ensures forall i :: 0 <= i < |s| && !hit(s[i]) ==> r[i] == s[i]
    ensures forall i :: 0 <= i < |s| && hit(s[i]) ==> r[i] == f(s[i])
  {
    if s == [] then []
    else [if hit(s[0]) then f(s[0]) else s[0]] + MapWhere(s[1..], hit, f)
  }

  /** When nothing matches, the map is the identity. */
  lemma MapWhereMissing<T>(s: seq<T>, hit: T -> bool, f: T -> T)
    requires forall x :: x in s ==> !hit(x)
    ensures MapWhere(s, hit, f) == s
  {
    var r := MapWhere(s, hit, f);
    assert forall i :: 0 <= i < |s| ==> r[i] == s[i];
  }

  /** A map by an involution that keeps the selection is its own inverse. */
  lemma MapWhereTwice<T>(s: seq<T>, hit: T -> bool, f: T -> T)
    requires forall x :: hit(x) ==> hit(f(x)) && f(f(x)) == x
    ensures MapWhere(MapWhere(s, hit, f), hit, f) == s
  {
    var r := MapWhere(s, hit, f);
    var r2 := MapWhere(r, hit, f);
    forall i | 0 <= i < |s|
      ensures r2[i] == s[i]
    {
      if hit(s[i]) {
        assert r[i] == f(s[i]) && hit(r[i]);
      }
    }
  }

  // ---------------------------------------------------------------------
  // Adding to a Set in a loop
  // ---------------------------------------------------------------------

  /** The keys a loop over `s` adds to a `Set`, in insertion order: the key
      of each element that has one, unless it is already there. */
  ghost function Collected<T, K>(s: seq<T>, key: T -> Option<K>): seq<K> {
    if s == [] then []
    else
      var before := Collected(s[..|s| - 1], key);
      var k := key(s[|s| - 1]);
      if k.None? || k.value in before then before else before + [k.value]
  }

  /** One more element adds its key when that key is new. */
  lemma CollectedSnoc<T, K>(s: seq<T>, x: T, key: T -> Option<K>)
    ensures Collected(s + [x], key)
            == if key(x).None? || key(x).value in Collected(s, key) then Collected(s, key)
               else Collected(s, key) + [key(x).value]
  {
    var after := s + [x];
    assert after[..|after| - 1] == s;
    assert after[|after| - 1] == x;
  }

  /** The loop itself: each element's key is added unless already there. */
  method CollectKeys<T, K(==)>(s: seq<T>, key: T -> Option<K>) returns (keys: seq<K>)
    ensures keys == Collected(s, key)
  {
    keys := [];
    for i := 0 to |s|
      invariant keys == Collected(s[..i], key)
    {
      CollectedSnoc(s[..i], s[i], key);
      var k := key(s[i]);
      if k.Some? && k.value !in keys {
        keys := keys + [k.value];
      }
      assert s[..i + 1] == s[..i] + [s[i]];
    }
    assert s[..|s|] == s;
  }

  /** The collected keys are distinct, and they are exactly the keys of the
      elements. */
  lemma {:induction false} CollectedFacts<T, K>(s: seq<T>, key: T -> Option<K>)
    ensures NoDup(Collected(s, key))
    ensures forall k :: k in Collected(s, key) <==> exists x :: x in s && key(x) == Some(k)
  {
    if s != [] {
      var init := s[..|s| - 1];
      CollectedFacts(init, key);
      assert s == init + [s[|s| - 1]];
      assert forall x :: x in s <==> x in init || x == s[|s| - 1];
    }
  }

  // ---------------------------------------------------------------------
  // String.prototype.split with a one-character separator, and join
  // ---------------------------------------------------------------------

  /** `s.split(sep)`: the pieces between occurrences of `sep`, empty pieces
      included; the empty string splits into one empty piece. */
  function Split(s: string, sep: char): (parts: seq<string>)
    ensures |parts| >= 1
    ensures forall w :: w in parts ==> sep !in w
    ensures |parts[0]| <= |s| && parts[0] == s[..|parts[0]|]
  {
    if s == [] then [[]]
    else
      var rest := Split(s[1..], sep);
      if s[0] == sep then [[]] + rest
      else [[s[0]] + rest[0]] + rest[1..]
  }

  /** `parts.join(sep)` */
  function Join(parts: seq<string>, sep: char): string
    requires |parts| >= 1
  {
    if |parts| == 1 then parts[0] else parts[0] + [sep] + Join(parts[1..], sep)
  }

  /** Splitting and joining again with the same separator gives back the
      string: no character is lost or invented by `Split`. */
  lemma {:induction false} SplitJoin(s: string, sep: char)
    ensures Join(Split(s, sep), sep) == s
  {
    if s != [] {
      var rest := Split(s[1..], sep);
      SplitJoin(s[1..], sep);
      if s[0] == sep {
        assert ([[]] + rest)[1..] == rest;
        assert s == [sep] + s[1..];
      } else if |rest| == 1 {
        assert s == [s[0]] + s[1..];
      } else {
        var parts := [[s[0]] + rest[0]] + rest[1..];
        assert parts[1..] == rest[1..];
        assert Join(rest, sep) == rest[0] + [sep] + Join(rest[1..], sep);
        assert s == [s[0]] + s[1..];
      }
    }
  }

  /** The text before the first `sep`, or all of `s` when there is none
      (`s.split(sep)[0]`). */
  lemma FirstPieceIsPrefixUpToSep(s: string, sep: char)
    ensures var p := Split(s, sep)[0];
            sep !in p && (|p| == |s| || s[|p|] == sep)
  {
    SplitJoin(s, sep);
    var parts := Split(s, sep);
    if |parts| > 1 {
      assert Join(parts, sep) == parts[0] + [sep] + Join(parts[1..], sep);
      assert s[|parts[0]|] == sep;
    }
  }

  // ---------------------------------------------------------------------
  // String.prototype.trim and String.prototype.toLowerCase
  // ---------------------------------------------------------------------

  /** The characters `trim` removes: ECMAScript WhiteSpace and LineTerminator. */
  predicate IsSpace(c: char) {
    c in {' ', '\t', '\n', '\U{000B}', '\U{000C}', '\r', '\U{00A0}', '\U{1680}',
          '\U{2028}', '\U{2029}', '\U{202F}', '\U{205F}', '\U{3000}', '\U{FEFF}'}
    || '\U{2000}' <= c <= '\U{200A}'
  }

  /** `s.trimStart()` */
  function TrimStart(s: string): string {
    if s != [] && IsSpace(s[0]) then TrimStart(s[1..]) else s
  }

  /** `s.trimEnd()` */
  function TrimEnd(s: string): string {
    if s != [] && IsSpace(s[|s| - 1]) then TrimEnd(s[..|s| - 1]) else s
  }

  /** `s.trim()`: `s` without its leading and trailing white space. */
  function Trim(s: string): string {
    TrimEnd(TrimStart(s))
  }

  /** `trimStart` drops exactly the leading white space: a suffix is left
      that is empty or starts with a non-space. */
  lemma {:induction false} TrimStartFacts(s: string)
    ensures var r := TrimStart(s);
            |r| <= |s| && r == s[|s| - |r|..]
            && (r == [] || !IsSpace(r[0]))
            && forall i :: 0 <= i < |s| - |r| ==> IsSpace(s[i])
  {
    if s != [] && IsSpace(s[0]) {
      var t := s[1..];
      TrimStartFacts(t);
      var r := TrimStart(t);
      assert TrimStart(s) == r;
      assert t[|t| - |r|..] == s[|s| - |r|..];
      forall i | 0 <= i < |s| - |r| ensures IsSpace(s[i]) {
        if i > 0 {
          assert s[i] == t[i - 1];
        }
      }
    }
  }

  /** `trimEnd` drops exactly the trailing white space: a prefix is left
      that is empty or ends with a non-space. */
  lemma {:induction false} TrimEndFacts(s: string)
    ensures var r := TrimEnd(s);
            |r| <= |s| && r == s[..|r|]
            && (r == [] || !IsSpace(r[|r| - 1]))
            && forall i :: |r| <= i < |s| ==> IsSpace(s[i])
  {
    if s != [] && IsSpace(s[|s| - 1]) {
      var t := s[..|s| - 1];
      TrimEndFacts(t);
      var r := TrimEnd(t);
      assert TrimEnd(s) == r;
      assert t[..|r|] == s[..|r|];
      forall i | |r| <= i < |s| ensures IsSpace(s[i]) {
        if i < |s| - 1 {
          assert s[i] == t[i];
        }
      }
    }
  }

  /** `trim` keeps the stretch of `s` between its leading and trailing
      white space, which neither starts nor ends with white space. */
  lemma TrimFacts(s: string)
    ensures var r := Trim(s); var k := |s| - |TrimStart(s)|;
            0 <= k && k + |r| <= |s| && r == s[k..k + |r|]
            && (forall i :: 0 <= i < k ==> IsSpace(s[i]))
            && (forall i :: k + |r| <= i < |s| ==> IsSpace(s[i]))
            && (r == [] || (!IsSpace(r[0]) && !IsSpace(r[|r| - 1])))
  {
    var a := TrimStart(s);
    TrimStartFacts(s);
    TrimEndFacts(a);
    var k := |s| - |a|;
    forall i | k + |Trim(s)| <= i < |s| ensures IsSpace(s[i]) {
      assert s[i] == a[i - k];
    }
  }

  /** `!s.trim()`: the string is empty or white space only. */
  predicate IsBlank(s: string) {
    Trim(s) == []
  }

  /** A string is blank exactly when every character is white space. */
  lemma BlankIffAllSpace(s: string)
    ensures IsBlank(s) <==> forall i :: 0 <= i < |s| ==> IsSpace(s[i])
  {
    TrimFacts(s);
    if !IsBlank(s) {
      var k := |s| - |TrimStart(s)|;
      assert s[k] == Trim(s)[0];
    }
  }

  /** Trimming twice is trimming once. */
  lemma TrimIdempotent(s: string)
    ensures Trim(Trim(s)) == Trim(s)
  {
    var t := Trim(s);
    TrimFacts(s);
    if t != [] {
      assert TrimStart(t) == t;
      assert TrimEnd(t) == t;
    }
  }

  /** `toLowerCase` on one character: Basic Latin and Latin-1 capitals. */
  function LowerChar(c: char): (r: char)
    ensures IsUpper(c) ==> r as int == c as int + 32
    ensures !IsUpper(c) ==> r == c
  {
    if IsUpper(c) then (c as int + 32) as char else c
  }

  predicate IsUpper(c: char) {
    'A' <= c <= 'Z' || ('\U{00C0}' <= c <= '\U{00DE}' && c != '\U{00D7}')
  }

  /** `s.toLowerCase()` */
  function ToLower(s: string): (r: string)
    ensures |r| == |s|
    ensures forall i :: 0 <= i < |s| ==> r[i] == LowerChar(s[i])
  {
    if s == [] then [] else [LowerChar(s[0])] + ToLower(s[1..])
  }

  /** Lower-casing is idempotent, so comparing lower-cased names is an
      equivalence that ignores case. */
  lemma ToLowerIdempotent(s: string)
    ensures ToLower(ToLower(s)) == ToLower(s)
  {
    var r := ToLower(s);
    assert forall i :: 0 <= i < |s| ==> !IsUpper(r[i]);
  }
}
