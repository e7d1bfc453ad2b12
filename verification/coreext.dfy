/**
 * The core extensions the table renderer installs on String, Hash and
 * Enumerable (mrblib/terminal.rb), together with the few Ruby built-ins
 * they and the renderer rest on: Array#[] with negative indices,
 * String#ljust, String#*, String#reverse, String#split and Array#join.
 * Strings are sequences of characters; nil is None.
 */
module CoreExt {

  datatype Option<T> = None | Some(value: T)

  /** Every character of `s` is `c`. */
  predicate AllChar(s: string, c: char) {
    forall i :: 0 <= i < |s| ==> s[i] == c
  }

  /** `c * n`: the pad run that ljust, rjust and center add. */
  function Repeat(c: char, n: nat): (r: string)
    ensures |r| == n
  {
    if n == 0 then "" else Repeat(c, n - 1) + [c]
  }

  lemma {:induction false} RepeatAllChar(c: char, n: nat)
    ensures AllChar(Repeat(c, n), c)
  {
    if n > 0 {
      RepeatAllChar(c, n - 1);
    }
  }

  /** String#reverse. */
  function Reverse<T>(s: seq<T>): (r: seq<T>)
    ensures |r| == |s|
  {
    if s == [] then [] else Reverse(s[1..]) + [s[0]]
  }

  lemma {:induction false} ReverseAt<T>(s: seq<T>)
    ensures forall i :: 0 <= i < |s| ==> Reverse(s)[i] == s[|s| - 1 - i]
  {
    if s != [] {
      ReverseAt(s[1..]);
    }
  }

  /** A pad run grows equally well at its front. */
  lemma RepeatShift(c: char, n: nat)
    ensures [c] + Repeat(c, n) == Repeat(c, n + 1)
  {
    RepeatAllChar(c, n);
    assert AllChar([c] + Repeat(c, n), c);
    RepeatUnique([c] + Repeat(c, n), c);
  }

  lemma {:induction false} RepeatUnique(r: string, c: char)
    requires AllChar(r, c)
    ensures r == Repeat(c, |r|)
  {
    var p := Repeat(c, |r|);
    RepeatAllChar(c, |r|);
    assert forall i :: 0 <= i < |r| ==> r[i] == p[i];
  }

  /** String#ljust with a one-character pad: pads on the right up to `width`. */
  function Ljust(s: string, width: int, pad: char): (r: string)
    ensures width <= |s| ==> r == s
    ensures width > |s| ==> |r| == width && r[..|s|] == s
  {
    if width > |s| then s + Repeat(pad, width - |s|) else s
  }

  /** What ljust adds after the string is pad characters only. */
  lemma LjustPadding(s: string, width: int, pad: char)
    requires width > |s|
    ensures AllChar(Ljust(s, width, pad)[|s|..], pad)
  {
    RepeatAllChar(pad, width - |s|);
    assert Ljust(s, width, pad)[|s|..] == Repeat(pad, width - |s|);
  }

  /** String#rjust as the polyfill writes it: reverse, ljust, reverse again. */
  function Rjust(s: string, width: int, pad: char): (r: string)
    ensures width <= |s| ==> r == s
    ensures width > |s| ==> r == Repeat(pad, width - |s|) + s
  {
    if width > |s| then
      var r := Reverse(Ljust(Reverse(s), width, pad));
      RjustIsLeftPad(s, width, pad);
      r
    else s
  }

  lemma {:induction false} RjustIsLeftPad(s: string, width: int, pad: char)
    requires width > |s|
    ensures Reverse(Ljust(Reverse(s), width, pad)) == Repeat(pad, width - |s|) + s
  {
    var n := width - |s|;
    var l := Ljust(Reverse(s), width, pad);
    var r := Reverse(l);
    var e := Repeat(pad, n) + s;
    assert l == Reverse(s) + Repeat(pad, n);
    ReverseAt(l);
    ReverseAt(s);
    RepeatAllChar(pad, n);
    forall i | 0 <= i < width ensures r[i] == e[i] {
      if i < n {
        assert r[i] == l[width - 1 - i];
        assert l[width - 1 - i] == Repeat(pad, n)[width - 1 - i - |s|];
      } else {
        assert r[i] == l[width - 1 - i] == Reverse(s)[width - 1 - i];
      }
    }
  }

  /** Half of `n`, rounded down. */
  function Half(n: nat): (h: nat)
    ensures 2 * h <= n <= 2 * h + 1
  {
    n / 2
  }

  /**
   * String#center exactly as the polyfill writes it: pad on the right by
   * floor((width - length) / 2), then right-justify to `width`. An odd
   * surplus therefore lands on the LEFT.
   */
  function CenterAsWritten(s: string, width: int, pad: char): (r: string)
    ensures width <= |s| ==> r == s
    ensures width > |s| ==>
      r == Repeat(pad, width - |s| - Half(width - |s|)) + s + Repeat(pad, Half(width - |s|))
  {
    if width > |s| then
      var padlen := Half(width - |s|);
      Rjust(Ljust(s, |s| + padlen, pad), width, pad)
    else s
  }

  /**
   * String#center with the tie-break of Ruby's own String#center: the left
   * run is floor((width - length) / 2) long and an odd surplus goes right.
   * It swaps the two steps of the polyfill: right-justify by the left run,
   * then left-justify to `width`.
   */
  function Center(s: string, width: int, pad: char): (r: string)
    ensures width <= |s| ==> r == s
    ensures width > |s| ==>
      r == Repeat(pad, Half(width - |s|)) + s + Repeat(pad, width - |s| - Half(width - |s|))
  {
    if width > |s| then
      var padlen := Half(width - |s|);
      Ljust(Rjust(s, |s| + padlen, pad), width, pad)
    else s
  }

  /** The polyfill and Ruby's own String#center part ways on "ab".center(5). */
  lemma CenterAsWrittenLeansLeft()
    ensures CenterAsWritten("ab", 5, ' ') == "  ab "
    ensures Center("ab", 5, ' ') == " ab  "
  {
    assert Repeat(' ', 1) == " ";
    assert Repeat(' ', 2) == "  ";
  }

  /** Hash#fetch as the polyfill writes it: the stored value, else the default. */
  function Fetch<K, V>(m: map<K, V>, key: K, default: V): (r: V)
    ensures key in m ==> r == m[key]
    ensures key !in m ==> r == default
  {
    if key in m then m[key] else default
  }

  /** Array#[] of the Ruby core: negative indices count from the end; out of range is nil. */
  function At<T>(xs: seq<T>, i: int): (r: Option<T>)
    ensures r.Some? <==> -|xs| <= i < |xs|
    ensures 0 <= i < |xs| ==> r == Some(xs[i])
    ensures -|xs| <= i < 0 ==> r == Some(xs[|xs| + i])
  {
    if 0 <= i < |xs| then Some(xs[i])
    else if -|xs| <= i < 0 then Some(xs[|xs| + i])
    else None
  }

  /** Array#join. */
  function JoinWith(parts: seq<string>, sep: string): string
  {
    if |parts| == 0 then ""
    else if |parts| == 1 then parts[0]
    else parts[0] + sep + JoinWith(parts[1..], sep)
  }

  /** The length of a join: every part once and one separator per gap. */
  function TotalLength(parts: seq<string>): nat
  {
    if |parts| == 0 then 0 else |parts[0]| + TotalLength(parts[1..])
  }

  lemma {:induction false} JoinWithLength(parts: seq<string>, sep: string)
    ensures |parts| >= 1 ==> |JoinWith(parts, sep)| == TotalLength(parts) + (|parts| - 1) * |sep|
  {
    if |parts| > 1 {
      JoinWithLength(parts[1..], sep);
    }
  }

  /**
   * String#split on a one-character separator before Ruby drops the
   * trailing empty fields: one field per separator plus one.
   */
  function Fields(s: string, sep: char): (r: seq<string>)
    ensures |r| >= 1
    ensures forall k :: 0 <= k < |r| ==> sep !in r[k]
  {
    if |s| == 0 then [""]
    else
      var rest := Fields(s[1..], sep);
      if s[0] == sep then [""] + rest
      else [[s[0]] + rest[0]] + rest[1..]
  }

  /** Joining the fields back with the separator gives the string back. */
  lemma {:induction false} JoinFields(s: string, sep: char)
    ensures JoinWith(Fields(s, sep), [sep]) == s
  {
    if |s| > 0 {
      var rest := Fields(s[1..], sep);
      JoinFields(s[1..], sep);
      if s[0] == sep {
        assert JoinWith([""] + rest, [sep]) == "" + [sep] + JoinWith(rest, [sep]);
      } else {
        var f := [[s[0]] + rest[0]] + rest[1..];
        if |rest| == 1 {
          assert f == [[s[0]] + rest[0]];
        } else {
          assert f[1..] == rest[1..];
          assert JoinWith(f, [sep]) == [s[0]] + rest[0] + [sep] + JoinWith(rest[1..], [sep]);
        }
      }
    }
  }

  lemma {:induction false} FieldsOfPlainPrefix(a: string, t: string, sep: char)
    requires sep !in a
    ensures Fields(a + t, sep) == [a + Fields(t, sep)[0]] + Fields(t, sep)[1..]
    decreases |a|
  {
    if |a| > 0 {
      assert (a + t)[1..] == a[1..] + t;
      FieldsOfPlainPrefix(a[1..], t, sep);
      assert [a[0]] + (a[1..] + Fields(t, sep)[0]) == a + Fields(t, sep)[0];
    } else {
      assert a + t == t;
      assert a + Fields(t, sep)[0] == Fields(t, sep)[0];
    }
  }

  /** Splitting a join of separator-free parts gives the parts back. */
  lemma {:induction false} FieldsJoin(parts: seq<string>, sep: char)
    requires |parts| >= 1
    requires forall k :: 0 <= k < |parts| ==> sep !in parts[k]
    ensures Fields(JoinWith(parts, [sep]), sep) == parts
  {
    if |parts| == 1 {
      FieldsOfPlainPrefix(parts[0], "", sep);
      assert parts[0] + "" == parts[0];
    } else {
      var t := JoinWith(parts[1..], [sep]);
      FieldsJoin(parts[1..], sep);
      assert JoinWith(parts, [sep]) == parts[0] + ([sep] + t);
      FieldsOfPlainPrefix(parts[0], [sep] + t, sep);
      assert ([sep] + t)[1..] == t;
      assert Fields([sep] + t, sep) == [""] + parts[1..];
      assert parts[0] + "" == parts[0];
    }
  }

  /**
   * The index that Enumerable#max_by selects: the running maximum is
   * replaced only by a strictly greater key, so ties keep the earliest.
   */
  function FirstMaxIndex<T>(xs: seq<T>, key: T -> int): (k: nat)
    requires |xs| > 0
    ensures k < |xs|
    ensures forall j :: 0 <= j < |xs| ==> key(xs[j]) <= key(xs[k])
    ensures forall j :: 0 <= j < k ==> key(xs[j]) < key(xs[k])
  {
    if |xs| == 1 then 0
    else
      var k := FirstMaxIndex(xs[..|xs| - 1], key);
      if key(xs[|xs| - 1]) > key(xs[k]) then |xs| - 1 else k
  }

  /** The value of Enumerable#max_by, for use in functions. */
  function MaxByValue<T>(xs: seq<T>, key: T -> int): Option<T>
  {
    if |xs| == 0 then None else Some(xs[FirstMaxIndex(xs, key)])
  }

  /** The first element of maximal key is the only one MaxByValue may pick. */
  lemma {:induction false} MaxByValueIsFirstMax<T>(xs: seq<T>, key: T -> int, k: nat)
    requires k < |xs|
    requires forall j :: 0 <= j < |xs| ==> key(xs[j]) <= key(xs[k])
    requires forall j :: 0 <= j < k ==> key(xs[j]) < key(xs[k])
    ensures MaxByValue(xs, key) == Some(xs[k])
  {
  }

  /** Enumerable#max_by: a single pass keeping `first`, `max` and `maxCmp`. */
  method MaxBy<T>(xs: seq<T>, key: T -> int) returns (max: Option<T>)
    ensures max.None? <==> |xs| == 0
    ensures max == MaxByValue(xs, key)
  {
    var first := true;
    max := None;
    var maxCmp := 0;
    var i := 0;
    while i < |xs|
      invariant 0 <= i <= |xs|
      invariant first <==> i == 0
      invariant first ==> max == None
      invariant !first ==> max == Some(xs[FirstMaxIndex(xs[..i], key)]) && maxCmp == key(max.value)
    {
      assert xs[..i + 1][..i] == xs[..i];
      if first {
        max := Some(xs[i]);
        maxCmp := key(xs[i]);
        first := false;
      } else {
        var cmp := key(xs[i]);
        if cmp > maxCmp {
          max := Some(xs[i]);
          maxCmp := cmp;
        }
      }
      i := i + 1;
    }
    assert xs[..i] == xs;
  }

  /** Enumerable#zip with one argument: a pair per element, nil past the end of `arg`. */
  method Zip<T, U>(xs: seq<T>, arg: seq<U>) returns (ary: seq<(T, Option<U>)>)
    ensures |ary| == |xs|
    ensures forall i :: 0 <= i < |xs| ==> ary[i].0 == xs[i]
    ensures forall i :: 0 <= i < |xs| ==> ary[i].1 == At(arg, i)
    ensures forall i :: 0 <= i < |xs| ==> (ary[i].1.Some? <==> i < |arg|)
  {
    ary := [];
    var i := 0;
    while i < |xs|
      invariant 0 <= i <= |xs|
      invariant |ary| == i
      invariant forall j :: 0 <= j < i ==> ary[j] == (xs[j], At(arg, j))
    {
      var pair := (xs[i], At(arg, i));
      ary := ary + [pair];
      i := i + 1;
    }
  }
}
