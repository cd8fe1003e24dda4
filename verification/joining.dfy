/** `Collectors.joining("|")`, the flattening of a multi-field terms key into one display key,
    and a splitter used only to state what the flattening preserves. */
module Joining {

  const Separator: char := '|'

  /** The parts in order with the separator between neighbours; no parts give the empty string. */
  function Join(parts: seq<string>): (s: string)
    ensures |parts| == 1 ==> s == parts[0]
  {
    if |parts| == 0 then ""
    else if |parts| == 1 then parts[0]
    else parts[0] + [Separator] + Join(parts[1..])
  }

  /** Index of the first separator in `s`, or `|s|` when there is none. */
  function SeparatorIndex(s: string): (i: nat)
    ensures i <= |s|
    ensures Separator !in s[..i]
    ensures i < |s| ==> s[i] == Separator
  {
    if |s| == 0 then 0
    else if s[0] == Separator then 0
    else
      var j := SeparatorIndex(s[1..]);
      assert s[1..][..j] == s[1..j + 1];
      assert s[..j + 1] == [s[0]] + s[1..j + 1];
      j + 1
  }

  /** Cuts `s` at every separator (reference inverse of `Join`). */
  function Split(s: string): (parts: seq<string>)
    ensures |parts| >= 1
    ensures forall i :: 0 <= i < |parts| ==> Separator !in parts[i]
    decreases |s|
  {
    var i := SeparatorIndex(s);
    if i == |s| then
      assert s[..i] == s;
      [s]
    else
      [s[..i]] + Split(s[i + 1..])
  }

  lemma SeparatorIndexOfJoined(a: string, rest: string)
    requires Separator !in a
    ensures SeparatorIndex(a + [Separator] + rest) == |a|
  {
    var s := a + [Separator] + rest;
    var i := SeparatorIndex(s);
    assert s[..|a| + 1][|a|] == Separator;
    assert forall j :: 0 <= j < |a| ==> s[j] == a[j];
  }

  /** Joining parts that contain no separator can be undone: the join loses nothing. */
  lemma {:induction false} SplitJoin(parts: seq<string>)
    requires |parts| >= 1
    requires forall i :: 0 <= i < |parts| ==> Separator !in parts[i]
    ensures Split(Join(parts)) == parts
    decreases |parts|
  {
    if |parts| > 1 {
      var rest := Join(parts[1..]);
      var s := parts[0] + [Separator] + rest;
      SeparatorIndexOfJoined(parts[0], rest);
      assert s[..|parts[0]|] == parts[0];
      assert s[|parts[0]| + 1..] == rest;
      SplitJoin(parts[1..]);
      assert [parts[0]] + parts[1..] == parts;
    }
  }

  /** On separator-free parts, different part lists give different display keys. */
  lemma JoinInjective(a: seq<string>, b: seq<string>)
    requires |a| >= 1 && |b| >= 1
    requires forall i :: 0 <= i < |a| ==> Separator !in a[i]
    requires forall i :: 0 <= i < |b| ==> Separator !in b[i]
    ensures Join(a) == Join(b) ==> a == b
  {
    SplitJoin(a);
    SplitJoin(b);
  }

  /** The pieces of every part, in order: what `Split` recovers from a join of parts that may
      themselves contain the separator. */
  function SplitEach(parts: seq<string>): (pieces: seq<string>)
    ensures |pieces| >= |parts|
    decreases |parts|
  {
    if |parts| == 0 then [] else Split(parts[0]) + SplitEach(parts[1..])
  }

  /** One step of `Join` for a list of at least two parts. */
  lemma JoinStep(a: string, tail: seq<string>)
    requires |tail| >= 1
    ensures Join([a] + tail) == a + [Separator] + Join(tail)
  {
    assert ([a] + tail)[1..] == tail;
  }

  /** Joining two non-empty lists one after the other puts a separator between their joins. */
  lemma {:induction false} JoinAppend(p: seq<string>, q: seq<string>)
    requires |p| >= 1 && |q| >= 1
    ensures Join(p + q) == Join(p) + [Separator] + Join(q)
    decreases |p|
  {
    assert p + q == [p[0]] + (p[1..] + q);
    JoinStep(p[0], p[1..] + q);
    if |p| > 1 {
      JoinAppend(p[1..], q);
      JoinStep(p[0], p[1..]);
      assert [p[0]] + p[1..] == p;
    }
  }

  /** `Split` gives the only non-empty list of separator-free parts that joins to the text. */
  lemma SplitUnique(s: string, parts: seq<string>)
    requires |parts| >= 1
    requires forall i :: 0 <= i < |parts| ==> Separator !in parts[i]
    requires Join(parts) == s
    ensures Split(s) == parts
  {
    SplitJoin(parts);
  }

  lemma SeparatorFreeAppend(p: seq<string>, q: seq<string>)
    requires forall i :: 0 <= i < |p| ==> Separator !in p[i]
    requires forall i :: 0 <= i < |q| ==> Separator !in q[i]
    ensures forall i :: 0 <= i < |p + q| ==> Separator !in (p + q)[i]
  {
    forall i | 0 <= i < |p + q| ensures Separator !in (p + q)[i] {
      if i >= |p| { assert (p + q)[i] == q[i - |p|]; }
    }
  }

  /** Splitting at a separator between two texts splits each text on its own. */
  lemma SplitAppend(a: string, rest: string)
    ensures Split(a + [Separator] + rest) == Split(a) + Split(rest)
  {
    var p, q := Split(a), Split(rest);
    JoinSplit(a);
    JoinSplit(rest);
    JoinAppend(p, q);
    SeparatorFreeAppend(p, q);
    SplitUnique(a + [Separator] + rest, p + q);
  }

  /** Splitting a join gives the pieces of every part: a part that contains the separator
      comes back as several pieces. */
  lemma {:induction false} SplitOfJoin(parts: seq<string>)
    ensures |parts| >= 1 ==> Split(Join(parts)) == SplitEach(parts)
    decreases |parts|
  {
    if |parts| == 1 {
      assert SplitEach(parts) == Split(parts[0]) + SplitEach(parts[1..]);
      assert SplitEach(parts[1..]) == [];
    } else if |parts| > 1 {
      SplitAppend(parts[0], Join(parts[1..]));
      SplitOfJoin(parts[1..]);
    }
  }

  /** A separator-free part is its own only piece. */
  lemma {:induction false} SplitEachSeparatorFree(parts: seq<string>)
    ensures (forall i :: 0 <= i < |parts| ==> Separator !in parts[i]) ==> SplitEach(parts) == parts
    decreases |parts|
  {
    if |parts| > 0 && forall i :: 0 <= i < |parts| ==> Separator !in parts[i] {
      assert SeparatorIndex(parts[0]) == |parts[0]|;
      assert parts[0][..|parts[0]|] == parts[0];
      SplitEachSeparatorFree(parts[1..]);
      assert [parts[0]] + parts[1..] == parts;
    }
  }

  /** A text holding a separator is cut into at least two pieces. */
  lemma SplitOfSeparated(p: string)
    ensures Separator in p ==> |Split(p)| >= 2
  {
    JoinSplit(p);
  }

  /** A join loses part boundaries exactly when some part holds the separator: then there are
      more pieces than parts, otherwise the pieces are the parts. */
  lemma {:induction false} SplitEachGrows(parts: seq<string>)
    ensures (exists i :: 0 <= i < |parts| && Separator in parts[i]) <==> |SplitEach(parts)| > |parts|
    decreases |parts|
  {
    SplitEachSeparatorFree(parts);
    if |parts| > 0 {
      SplitOfSeparated(parts[0]);
      SplitEachGrows(parts[1..]);
      if exists i :: 0 <= i < |parts| && Separator in parts[i] {
        var i :| 0 <= i < |parts| && Separator in parts[i];
        if i > 0 {
          assert parts[1..][i - 1] == parts[i];
        }
      }
    }
  }

  /** Joining the pieces of a text gives the text back, so a display key is determined by its
      pieces. */
  lemma {:induction false} JoinSplit(s: string)
    ensures Join(Split(s)) == s
    decreases |s|
  {
    var i := SeparatorIndex(s);
    if i < |s| {
      var rest := s[i + 1..];
      assert Split(s) == [s[..i]] + Split(rest);
      JoinSplit(rest);
      JoinStep(s[..i], Split(rest));
      assert s[..i] + [Separator] + rest == s;
    } else {
      assert s[..i] == s;
    }
  }
}
