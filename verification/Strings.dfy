/** The pieces of Go's `strings` package that the modelled code relies on. */
module Strings {

  /** The characters `strings.TrimSpace` removes (Unicode White_Space). */
  predicate IsSpace(c: char) {
    || c == ' ' || '\t' <= c <= '\r'
    || c == '\U{85}' || c == '\U{A0}' || c == '\U{1680}' || '\U{2000}' <= c <= '\U{200A}'
    || c == '\U{2028}' || c == '\U{2029}' || c == '\U{202F}' || c == '\U{205F}' || c == '\U{3000}'
  }

  predicate IsSlash(c: char) {
    c == '/'
  }

  /** The first position from `i` on that is not cut. */
  function FirstKept(s: string, cut: char -> bool, i: nat): (r: nat)
    requires i <= |s|
    ensures i <= r <= |s| && (r < |s| ==> !cut(s[r]))
    decreases |s| - i
  {
    if i < |s| && cut(s[i]) then FirstKept(s, cut, i + 1) else i
  }

  /** Just behind the last position from `lo` to `hi` that is not cut. */
  function LastKept(s: string, cut: char -> bool, lo: nat, hi: nat): (r: nat)
    requires lo <= hi <= |s|
    ensures lo <= r <= hi && (r > lo ==> !cut(s[r - 1]))
    decreases hi - lo
  {
    if hi > lo && cut(s[hi - 1]) then LastKept(s, cut, lo, hi - 1) else hi
  }

  /** `strings.TrimRight`. */
  function TrimEnd(s: string, cut: char -> bool): (r: string)
    ensures |r| <= |s| && r == s[..|r|]
    ensures r != "" ==> !cut(r[|r| - 1])
  {
    s[..LastKept(s, cut, 0, |s|)]
  }

  /** `strings.Trim`: the cut characters go from both ends. */
  function Trim(s: string, cut: char -> bool): (r: string)
    ensures |r| <= |s|
    ensures r != "" ==> !cut(r[0]) && !cut(r[|r| - 1])
  {
    var i := FirstKept(s, cut, 0);
    s[i..LastKept(s, cut, i, |s|)]
  }

  function TrimSpace(s: string): (r: string)
    ensures |r| <= |s|
    ensures r != "" ==> !IsSpace(r[0]) && !IsSpace(r[|r| - 1])
  {
    Trim(s, IsSpace)
  }

  lemma TrimOfTight(s: string, cut: char -> bool)
    requires s != "" ==> !cut(s[0]) && !cut(s[|s| - 1])
    ensures Trim(s, cut) == s
  {
  }

  lemma TrimIsIdempotent(s: string, cut: char -> bool)
    ensures Trim(Trim(s, cut), cut) == Trim(s, cut)
  {
    TrimOfTight(Trim(s, cut), cut);
  }

  /**
   * `strings.ToLower`, exact wherever the result is ASCII: besides 'A' to 'Z' only
   * U+212A and U+0130 lower into ASCII.  Other letters are left as they are.
   */
  function ToLower(s: string): (r: string)
    ensures |r| == |s|
  {
    if s == "" then ""
    else
      var c := s[0];
      [if 'A' <= c <= 'Z' then (c as int + 32) as char
       else if c == '\U{212A}' then 'k'
       else if c == '\U{130}' then 'i'
       else c] + ToLower(s[1..])
  }

  predicate AllDistinct(names: seq<string>) {
    forall i, j :: 0 <= i < j < |names| ==> names[i] != names[j]
  }

  lemma SomeOrder(names: set<string>) returns (order: seq<string>)
    ensures AllDistinct(order)
    ensures forall n :: n in order <==> n in names
    decreases |names|
  {
    if names == {} {
      order := [];
    } else {
      var n :| n in names;
      var rest := SomeOrder(names - {n});
      order := rest + [n];
    }
  }

  predicate HasPrefix(s: string, prefix: string) {
    prefix <= s
  }

  predicate HasSuffix(s: string, suffix: string) {
    |suffix| <= |s| && s[|s| - |suffix|..] == suffix
  }

  /** Bytewise order on UTF-8 is code point order, so Go's `<` on strings is this. */
  predicate Less(a: string, b: string) {
    if b == "" then false
    else if a == "" then true
    else a[0] < b[0] || (a[0] == b[0] && Less(a[1..], b[1..]))
  }

  lemma {:induction false} LessIsTotal(a: string, b: string)
    ensures Less(a, b) || a == b || Less(b, a)
    ensures !(Less(a, b) && Less(b, a))
    ensures !Less(a, a)
  {
    if a != "" && b != "" {
      LessIsTotal(a[1..], b[1..]);
      if a[0] == b[0] && a[1..] == b[1..] {
        assert a == [a[0]] + a[1..] == [b[0]] + b[1..] == b;
      }
    }
    if a != "" {
      LessIsTotal(a[1..], a[1..]);
    }
  }

  lemma {:induction false} LessIsTransitive(a: string, b: string, c: string)
    requires Less(a, b) && Less(b, c)
    ensures Less(a, c)
  {
    if a != "" && a[0] == b[0] && b[0] == c[0] {
      LessIsTransitive(a[1..], b[1..], c[1..]);
    }
  }

  /** The results of `f` that pass, each at its first mention. */
  function KeptOnce(items: seq<string>, f: string -> string, ok: string -> bool): seq<string> {
    if items == [] then []
    else
      var r, y := KeptOnce(items[..|items| - 1], f, ok), f(items[|items| - 1]);
      if ok(y) && y !in r then r + [y] else r
  }

  lemma {:induction false} KeptOnceMembers(items: seq<string>, f: string -> string, ok: string -> bool)
    ensures AllDistinct(KeptOnce(items, f, ok))
    ensures forall y :: y in KeptOnce(items, f, ok) <==> ok(y) && exists x :: x in items && f(x) == y
  {
    if items != [] {
      var n := |items| - 1;
      assert items == items[..n] + [items[n]];
      KeptOnceMembers(items[..n], f, ok);
    }
  }

  lemma {:induction false} KeptOnceAgain(items: seq<string>, f: string -> string, ok: string -> bool)
    requires AllDistinct(items) && forall x :: x in items ==> ok(x) && f(x) == x
    ensures KeptOnce(items, f, ok) == items
  {
    if items != [] {
      var n := |items| - 1;
      assert items == items[..n] + [items[n]];
      KeptOnceAgain(items[..n], f, ok);
    }
  }

  predicate IsDigit(c: char) {
    '0' <= c <= '9'
  }

  predicate IsNumber(part: string) {
    part != "" && forall i :: 0 <= i < |part| ==> IsDigit(part[i])
  }

  function DigitValue(c: char): nat
    requires IsDigit(c)
  {
    c as int - '0' as int
  }

  /** The number a run of digits denotes. */
  function DecimalValue(s: string): nat
    requires forall i :: 0 <= i < |s| ==> IsDigit(s[i])
  {
    if s == "" then 0 else 10 * DecimalValue(s[..|s| - 1]) + DigitValue(s[|s| - 1])
  }

  /** `strings.Split` for a one-character separator. */
  function Split(s: string, sep: char): (r: seq<string>)
    ensures |r| >= 1
    ensures forall i :: 0 <= i < |r| ==> sep !in r[i]
  {
    if s == "" then [""]
    else
      var rest := Split(s[1..], sep);
      if s[0] == sep then [""] + rest else [[s[0]] + rest[0]] + rest[1..]
  }

  /** `strings.Join` for a one-character separator. */
  function Join(segs: seq<string>, sep: char): string {
    if segs == [] then ""
    else if |segs| == 1 then segs[0]
    else segs[0] + [sep] + Join(segs[1..], sep)
  }

  lemma {:induction false} JoinOfSplit(s: string, sep: char)
    ensures Join(Split(s, sep), sep) == s
  {
    if s != "" {
      JoinOfSplit(s[1..], sep);
      var rest := Split(s[1..], sep);
      var all := Split(s, sep);
      if s[0] == sep {
        assert all[1..] == rest;
      } else if |rest| > 1 {
        assert all[1..] == rest[1..];
      }
    }
  }

  lemma {:induction false} SplitOfConcat(head: string, tail: string, sep: char)
    requires sep !in head
    ensures Split(head, sep) == [head]
    ensures Split(head + [sep] + tail, sep) == [head] + Split(tail, sep)
  {
    if head == "" {
      assert head + [sep] + tail == [sep] + tail;
    } else {
      SplitOfConcat(head[1..], tail, sep);
      assert (head + [sep] + tail)[1..] == head[1..] + [sep] + tail;
      assert [head[0]] + head[1..] == head;
    }
  }

  lemma {:induction false} SplitOfJoin(segs: seq<string>, sep: char)
    requires |segs| >= 1
    requires forall i :: 0 <= i < |segs| ==> sep !in segs[i]
    ensures Split(Join(segs, sep), sep) == segs
  {
    if |segs| == 1 {
      SplitOfConcat(segs[0], "", sep);
    } else {
      SplitOfJoin(segs[1..], sep);
      SplitOfConcat(segs[0], Join(segs[1..], sep), sep);
      assert [segs[0]] + segs[1..] == segs;
    }
  }

  /** Being a prefix up to a separator boundary is being a prefix segment by segment. */
  lemma {:induction false} SplitPrefix(dest: string, path: string, sep: char)
    ensures Split(dest, sep) <= Split(path, sep) <==> path == dest || dest + [sep] <= path
  {
    var d, p := Split(dest, sep), Split(path, sep);
    if dest == "" {
      if path != "" {
        assert p[0] == "" <==> path[0] == sep;
      }
    } else if path != "" && path[0] == dest[0] {
      SplitPrefix(dest[1..], path[1..], sep);
      var d', p' := Split(dest[1..], sep), Split(path[1..], sep);
      assert (path == dest || dest + [sep] <= path)
        <==> (path[1..] == dest[1..] || dest[1..] + [sep] <= path[1..]) by {
        if path[1..] == dest[1..] {
          assert path == [path[0]] + path[1..] == [dest[0]] + dest[1..] == dest;
        }
        assert (dest + [sep])[1..] == dest[1..] + [sep];
        if dest[1..] + [sep] <= path[1..] {
          assert dest + [sep] == [path[0]] + (dest[1..] + [sep]);
          assert path == [path[0]] + path[1..];
        }
      }
      if dest[0] == sep {
        assert d[1..] == d' && p[1..] == p';
        assert d <= p <==> d' <= p' by {
          if d' <= p' {
            assert d == [""] + d' && p == [""] + p';
          }
        }
      } else {
        SplitPrefixHeads(d', p', dest[0]);
      }
    } else if path != "" {
      assert dest[0] != sep ==> d[0] != "" && d[0][0] == dest[0];
      assert path[0] != sep ==> p[0] != "" && p[0][0] == path[0];
      assert d[0] != p[0];
    } else {
      assert p == [""];
      assert dest[0] == sep ==> |d| >= 2;
      assert dest[0] != sep ==> d[0] != "";
    }
  }

  lemma SplitPrefixHeads(d: seq<string>, p: seq<string>, c: char)
    requires |d| >= 1 && |p| >= 1
    ensures [[c] + d[0]] + d[1..] <= [[c] + p[0]] + p[1..] <==> d <= p
  {
    var x, y := [[c] + d[0]] + d[1..], [[c] + p[0]] + p[1..];
    if d <= p {
      assert forall i :: 1 <= i < |d| ==> x[i] == d[i] && y[i] == p[i];
      assert d[0] == p[0];
    }
    if x <= y {
      assert x[0] == y[0] && d[0] == x[0][1..] && p[0] == y[0][1..];
      assert forall i :: 1 <= i < |d| ==> d[i] == x[i] && p[i] == y[i];
    }
  }
}
