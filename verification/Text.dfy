/** Searching, splitting and stripping of text: the operations of Python's `str` and
    `bytes` that the modelled code is built from, each with the property that makes it
    safe to apply to a text that arrives in pieces. */
module Text {

  datatype Option<+T> = None | Some(value: T)

  const NEWLINE := "\n"
  const CRLF := "\r\n"
  /** What a server-sent event's data line starts with. */
  const DATA := "data: "

  /** `tag` stands in `s` at position `i`. */
  predicate At(s: string, tag: string, i: int) {
    0 <= i && i + |tag| <= |s| && s[i..i + |tag|] == tag
  }

  predicate StartsWith(s: string, tag: string) {
    At(s, tag, 0)
  }

  predicate EndsWith(s: string, tag: string) {
    |tag| <= |s| && s[|s| - |tag|..] == tag
  }

  lemma AtChar(s: string, tag: string, i: int, k: nat)
    requires At(s, tag, i) && k < |tag|
    ensures s[i + k] == tag[k]
  {
    assert s[i..i + |tag|][k] == tag[k];
  }

  /** `s.find(tag)`: the leftmost position of `tag`, or -1. */
  function Find(s: string, tag: string): (i: int)
    ensures -1 <= i
    ensures i != -1 ==> At(s, tag, i)
    ensures forall j :: At(s, tag, j) ==> 0 <= i <= j
  {
    FindFrom(s, tag, 0)
  }

  function FindFrom(s: string, tag: string, from: nat): (i: int)
    ensures i == -1 || (from <= i && At(s, tag, i))
    ensures forall j :: from <= j && At(s, tag, j) ==> from <= i <= j
    decreases |s| - from
  {
    if At(s, tag, from) then from
    else if from + |tag| >= |s| then -1
    else FindFrom(s, tag, from + 1)
  }

  /** An occurrence in `a + b` that ends inside `a` is one in `a`; an occurrence that
      starts at or after the end of `a` is one in `b`. */
  lemma AtAppend(a: string, b: string, tag: string, i: int)
    ensures i + |tag| <= |a| ==> (At(a + b, tag, i) <==> At(a, tag, i))
    ensures |a| <= i ==> (At(a + b, tag, i) <==> At(b, tag, i - |a|))
  {
    if 0 <= i && i + |tag| <= |a| {
      assert (a + b)[i..i + |tag|] == a[i..i + |tag|];
    }
    if |a| <= i && i + |tag| <= |a + b| {
      assert (a + b)[i..i + |tag|] == b[i - |a|..i - |a| + |tag|];
    }
  }

  /** Text that arrives later never moves the first occurrence. */
  lemma FindStable(a: string, b: string, tag: string)
    ensures Find(a, tag) != -1 ==> Find(a + b, tag) == Find(a, tag)
    ensures Find(a, tag) == -1 && Find(a + b, tag) != -1 ==> Find(a + b, tag) + |tag| > |a|
  {
    AtAppend(a, b, tag, Find(a, tag));
    AtAppend(a, b, tag, Find(a + b, tag));
  }

  /** What precedes the first occurrence. */
  function Ahead(s: string, tag: string): string
    requires Find(s, tag) != -1
  {
    s[..Find(s, tag)]
  }

  /** What follows the first occurrence. */
  function After(s: string, tag: string): string
    requires Find(s, tag) != -1
  {
    s[Find(s, tag) + |tag|..]
  }

  /** From the first occurrence on. */
  function From(s: string, tag: string): string
    requires Find(s, tag) != -1
  {
    s[Find(s, tag)..]
  }

  lemma AroundTag(s: string, tag: string)
    requires Find(s, tag) != -1
    ensures s == Ahead(s, tag) + tag + After(s, tag) == Ahead(s, tag) + From(s, tag)
    ensures |Ahead(s, tag)| == Find(s, tag) && |After(s, tag)| == |s| - Find(s, tag) - |tag|
  {
    var i := Find(s, tag);
    assert s[i..i + |tag|] == tag;
  }

  lemma AroundTagIs(s: string, tag: string, head: string, tail: string)
    requires s == head + (tag + tail) && Find(s, tag) == |head|
    ensures Ahead(s, tag) == head && After(s, tag) == tail && From(s, tag) == tag + tail
  {
  }

  /** What stands around the first occurrence, when more text arrives. */
  lemma AroundGrows(a: string, b: string, tag: string)
    requires Find(a, tag) != -1
    ensures Find(a + b, tag) == Find(a, tag)
    ensures Ahead(a + b, tag) == Ahead(a, tag)
    ensures After(a + b, tag) == After(a, tag) + b
    ensures From(a + b, tag) == From(a, tag) + b
  {
    hide FindFrom;
    FindStable(a, b, tag);
  }

  /** A tag whose first character does not recur inside `x` cannot start inside `x`. */
  lemma NoOverlap(s: string, x: string, y: string, i: int, j: int)
    requires At(s, x, i) && At(s, y, j) && i < j && y != ""
    requires forall k :: 0 < k < |x| ==> x[k] != y[0]
    ensures i + |x| <= j
  {
    AtChar(s, y, j, 0);
    if j < i + |x| {
      AtChar(s, x, i, j - i);
    }
  }

  lemma SliceOfSlice(s: string, lo: nat, hi: nat, i: nat, j: nat)
    requires lo <= hi <= |s| && i <= j <= hi - lo
    ensures s[lo..hi][i..j] == s[lo + i..lo + j]
  {
    var part := s[lo..hi];
    forall k | i <= k < j ensures part[k] == s[lo + k] {
    }
    assert part[i..j] == s[lo + i..lo + j];
  }

  /** Occurrences in a slice are occurrences in the whole, and the other way round. */
  lemma AtSlice(s: string, lo: nat, hi: nat, tag: string, j: int)
    requires lo <= hi <= |s|
    ensures 0 <= j && j + |tag| <= hi - lo ==> (At(s[lo..hi], tag, j) <==> At(s, tag, lo + j))
  {
    if 0 <= j && j + |tag| <= hi - lo {
      SliceOfSlice(s, lo, hi, j, j + |tag|);
    }
  }

  /** The first occurrence at or after `lo`. */
  lemma FindInTail(s: string, lo: nat, tag: string)
    requires lo <= |s| && (Find(s, tag) == -1 || lo <= Find(s, tag))
    ensures Find(s[lo..], tag) == if Find(s, tag) == -1 then -1 else Find(s, tag) - lo
  {
    var i, j := Find(s, tag), Find(s[lo..], tag);
    assert s[lo..] == s[lo..|s|];
    AtSlice(s, lo, |s|, tag, j);
    AtSlice(s, lo, |s|, tag, i - lo);
  }

  /** `x` comes before any `y` in `s`. */
  predicate Before(s: string, x: string, y: string) {
    Find(s, x) != -1 && (Find(s, y) == -1 || Find(s, x) < Find(s, y))
  }

  /** Once the earlier tag is skipped, the later one and what follows it are still the same. */
  lemma AfterBoth(s: string, x: string, y: string)
    requires Before(s, x, y) && Find(s, y) != -1 && x != "" && y != ""
    requires forall k :: 0 < k < |x| ==> x[k] != y[0]
    ensures Find(After(s, x), y) != -1 && After(After(s, x), y) == After(s, y)
  {
    hide FindFrom;
    NoOverlap(s, x, y, Find(s, x), Find(s, y));
    FindInTail(s, Find(s, x) + |x|, y);
  }

  lemma AfterNone(s: string, x: string, y: string)
    requires Find(s, x) != -1 && Find(s, y) == -1
    ensures Find(After(s, x), y) == -1
  {
    hide FindFrom;
    FindInTail(s, Find(s, x) + |x|, y);
  }

  /** What precedes a tag contains another one exactly when that one comes first. */
  lemma AheadHas(s: string, x: string, y: string)
    requires Find(s, y) != -1 && x != "" && y != ""
    requires forall k :: 0 < k < |x| ==> x[k] != y[0]
    ensures Find(Ahead(s, y), x) != -1 <==> Before(s, x, y)
  {
    hide FindFrom;
    var i, n := Find(s, x), Find(s, y);
    assert Ahead(s, y) == s[0..n];
    if Before(s, x, y) {
      NoOverlap(s, x, y, i, n);
      AtSlice(s, 0, n, x, i);
    }
    AtSlice(s, 0, n, x, Find(Ahead(s, y), x));
  }

  lemma FromFirst(s: string, tag: string)
    requires Find(s, tag) != -1
    ensures Find(From(s, tag), tag) == 0 && After(From(s, tag), tag) == After(s, tag)
  {
    hide FindFrom;
    FindInTail(s, Find(s, tag), tag);
  }

  /** Two tags that differ in their second character and by at most one in length cannot
      change places when more text arrives. */
  lemma BeforeStable(a: string, b: string, x: string, y: string)
    requires 1 < |x| && 1 < |y| <= |x| + 1 && x[1] != y[1]
    requires Before(a, x, y)
    ensures Find(a + b, x) == Find(a, x) && Before(a + b, x, y)
  {
    FindStable(a, b, x);
    FindStable(a, b, y);
    var i, j := Find(a + b, x), Find(a + b, y);
    if j == i {
      AtChar(a + b, x, i, 1);
      AtChar(a + b, y, i, 1);
    }
  }

  // ---------------------------------------------------------------- splitting

  datatype Split = Split(pieces: seq<string>, rest: string) {
    /** This split, continued by the split of what follows. */
    function Then(next: Split): Split {
      Split(pieces + next.pieces, next.rest)
    }
  }

  /** The pieces closed by a separator, and what follows the last separator. */
  function SplitOn(s: string, sep: string): (r: Split)
    requires sep != ""
    ensures Find(r.rest, sep) == -1
    decreases |s|
  {
    var i := Find(s, sep);
    if i == -1 then Split([], s)
    else
      Split([s[..i]], "").Then(SplitOn(s[i + |sep|..], sep))
  }

  /** No separator is left in a piece. */
  lemma {:induction false} SplitPieces(s: string, sep: string)
    requires sep != ""
    ensures forall piece :: piece in SplitOn(s, sep).pieces ==> Find(piece, sep) == -1
    decreases |s|
  {
    var i := Find(s, sep);
    if i != -1 {
      SplitPieces(s[i + |sep|..], sep);
      hide FindFrom;
      NotBefore(s, sep);
    }
  }

  lemma NotBefore(s: string, sep: string)
    requires sep != "" && Find(s, sep) != -1
    ensures Find(s[..Find(s, sep)], sep) == -1
  {
    hide FindFrom;
    var i := Find(s, sep);
    var j := Find(s[..i], sep);
    assert s == s[..i] + s[i..];
    AtAppend(s[..i], s[i..], sep, j);
  }

  /** The pieces, each followed by its separator. */
  function Closed(pieces: seq<string>, sep: string): string {
    if pieces == [] then "" else pieces[0] + sep + Closed(pieces[1..], sep)
  }

  lemma {:induction false} ClosedAppend(a: seq<string>, b: seq<string>, sep: string)
    ensures Closed(a + b, sep) == Closed(a, sep) + Closed(b, sep)
  {
    if a == [] {
      assert a + b == b;
      assert "" + Closed(b, sep) == Closed(b, sep);
    } else {
      var tail := a[1..];
      assert (a + b)[1..] == tail + b;
      ClosedAppend(tail, b, sep);
      Assoc(a[0] + sep, Closed(tail, sep), Closed(b, sep));
    }
  }

  lemma Assoc<T>(a: seq<T>, b: seq<T>, c: seq<T>)
    ensures (a + b) + c == a + (b + c)
  {
  }

  lemma SplitStep(s: string, sep: string, head: string, tail: string)
    requires sep != "" && Find(s, sep) == |head| && s == head + sep + tail
    ensures SplitOn(s, sep) == Split([head], "").Then(SplitOn(tail, sep))
  {
    assert s[..|head|] == head && s[|head| + |sep|..] == tail;
  }

  lemma ClosedCons(head: string, tail: seq<string>, sep: string)
    ensures Closed([head] + tail, sep) == head + sep + Closed(tail, sep)
  {
    assert ([head] + tail)[1..] == tail;
  }

  /** Splitting loses nothing. */
  lemma {:induction false} SplitKeepsAll(s: string, sep: string)
    requires sep != ""
    ensures Closed(SplitOn(s, sep).pieces, sep) + SplitOn(s, sep).rest == s
    decreases |s|
  {
    var i := Find(s, sep);
    if i == -1 {
      assert SplitOn(s, sep) == Split([], s);
    } else {
      var tail := s[i + |sep|..];
      var r := SplitOn(tail, sep);
      assert s == s[..i] + sep + tail by { assert s[i..i + |sep|] == sep; }
      SplitStep(s, sep, s[..i], tail);
      SplitKeepsAll(tail, sep);
      ClosedCons(s[..i], r.pieces, sep);
      Assoc(s[..i] + sep, Closed(r.pieces, sep), r.rest);
    }
  }

  lemma ThenAssoc(a: Split, b: Split, c: Split)
    ensures a.Then(b).Then(c) == a.Then(b.Then(c))
  {
    Assoc(a.pieces, b.pieces, c.pieces);
  }

  /** The homomorphism behind every line-buffered reader: splitting a text that arrives
      in two parts is splitting the first, then splitting its remainder with the second. */
  lemma {:induction false} SplitAppend(a: string, b: string, sep: string)
    requires sep != ""
    ensures var r := SplitOn(a, sep);
            SplitOn(a + b, sep) == r.Then(SplitOn(r.rest + b, sep))
    decreases |a|
  {
    var i := Find(a, sep);
    if i == -1 {
      assert SplitOn(a, sep) == Split([], a);
      assert [] + SplitOn(a + b, sep).pieces == SplitOn(a + b, sep).pieces;
    } else {
      FindStable(a, b, sep);
      var head, tail := a[..i], a[i + |sep|..];
      assert a[i..i + |sep|] == sep;
      assert a == head + sep + tail;
      assert a + b == head + sep + (tail + b);
      SplitStep(a, sep, head, tail);
      SplitStep(a + b, sep, head, tail + b);
      SplitAppend(tail, b, sep);
      var r := SplitOn(tail, sep);
      ThenAssoc(Split([head], ""), r, SplitOn(r.rest + b, sep));
    }
  }

  /** The first separator stays where it is, whatever follows it. */
  lemma FindKeeps(head: string, sep: string, tail: string, other: string)
    requires Find(head + sep + tail, sep) == |head|
    ensures Find(head + sep + other, sep) == |head|
  {
    var s, t := head + sep + tail, head + sep + other;
    assert s == (head + sep) + tail && t == (head + sep) + other;
    assert At(t, sep, |head|) by { assert t[|head|..|head| + |sep|] == sep; }
    hide FindFrom;
    var j := Find(t, sep);
    AtAppend(head + sep, other, sep, j);
    AtAppend(head + sep, tail, sep, j);
  }

  /** Closed pieces split again as they did, whatever follows them. */
  lemma {:induction false} SplitClosed(s: string, sep: string, x: string)
    requires sep != ""
    ensures var r := SplitOn(s, sep);
            SplitOn(Closed(r.pieces, sep) + x, sep) == Split(r.pieces, "").Then(SplitOn(x, sep))
    decreases |s|
  {
    if Find(s, sep) == -1 {
      assert "" + x == x;
      assert [] + SplitOn(x, sep).pieces == SplitOn(x, sep).pieces;
    } else {
      AroundTag(s, sep);
      var head, tail := Ahead(s, sep), After(s, sep);
      var r := SplitOn(tail, sep);
      SplitClosed(tail, sep, x);
      hide Find, FindFrom, At;
      SplitStep(s, sep, head, tail);
      ClosedCons(head, r.pieces, sep);
      hide SplitOn, Closed, Ahead, After;
      FindKeeps(head, sep, tail, Closed(r.pieces, sep) + x);
      Assoc(head + sep, Closed(r.pieces, sep), x);
      SplitStep(head + sep + (Closed(r.pieces, sep) + x), sep, head, Closed(r.pieces, sep) + x);
      ThenAssoc(Split([head], ""), Split(r.pieces, ""), SplitOn(x, sep));
    }
  }

  lemma {:induction false} ClosedEnds(pieces: seq<string>, sep: string)
    requires sep != ""
    ensures var c := Closed(pieces, sep); c == "" || c[|c| - 1] == sep[|sep| - 1]
  {
    if pieces != [] {
      ClosedEnds(pieces[1..], sep);
    }
  }

  // ------------------------------------------------- holding back half a tag

  /** `h` characters at the end of `s` form the longest suffix that is a proper prefix of
      `tag`: the only part of `s` a later text can still turn into the tag. */
  ghost predicate Holds(s: string, tag: string, h: nat) {
    && h <= |s| && h < |tag| && EndsWith(s, tag[..h])
    && forall k :: h < k <= |s| && k < |tag| ==> !EndsWith(s, tag[..k])
  }

  function HoldLength(s: string, tag: string): (h: nat)
    requires tag != ""
    ensures Holds(s, tag, h)
  {
    HoldFrom(s, tag, if |s| < |tag| - 1 then |s| else |tag| - 1)
  }

  function HoldFrom(s: string, tag: string, n: nat): (h: nat)
    requires n <= |s| && n < |tag|
    requires forall k :: n < k <= |s| && k < |tag| ==> !EndsWith(s, tag[..k])
    ensures Holds(s, tag, h)
  {
    if n == 0 || EndsWith(s, tag[..n]) then n else HoldFrom(s, tag, n - 1)
  }

  /** No tag can start before the held-back suffix. */
  lemma NoTagBeforeHold(seen: string, text: string, tag: string, j: int)
    requires tag != "" && Find(seen, tag) == -1 && At(seen + text, tag, j)
    ensures |seen| - HoldLength(seen, tag) <= j
  {
    AtAppend(seen, text, tag, j);
    if j < |seen| {
      var k := |seen| - j;
      var all := seen + text;
      assert seen[j..] == all[j..j + k];
      assert all[j..j + |tag|][..k] == all[j..j + k];
      assert EndsWith(seen, tag[..k]);
    }
  }

  /** Nor can a held-back suffix reach further back than the previous one did. */
  lemma HoldStaysBehind(seen: string, text: string, tag: string, k: nat)
    requires tag != "" && k < |tag| && EndsWith(seen + text, tag[..k])
    ensures k <= HoldLength(seen, tag) + |text|
  {
    if k > |text| {
      var n := k - |text|;
      var all := seen + text;
      assert seen[|seen| - n..] == all[|all| - k..][..n];
      assert tag[..k][..n] == tag[..n];
      assert EndsWith(seen, tag[..n]);
    }
  }

  lemma EndsWithTail(head: string, tail: string, tag: string)
    requires |tag| <= |tail|
    ensures EndsWith(head + tail, tag) <==> EndsWith(tail, tag)
  {
    var all := head + tail;
    assert all[|all| - |tag|..] == tail[|tail| - |tag|..];
  }

  /** A reader that keeps only the held-back suffix of what it has seen finds the next tag
      exactly where a reader of the whole text finds it, and holds back the same suffix. */
  lemma HoldSuffices(seen: string, text: string, tag: string)
    requires tag != "" && Find(seen, tag) == -1
    ensures var e := |seen| - HoldLength(seen, tag);
            var i := Find(seen[e..] + text, tag);
            && Find(seen + text, tag) == (if i == -1 then -1 else e + i)
            && HoldLength(seen[e..] + text, tag) == HoldLength(seen + text, tag)
  {
    var e := |seen| - HoldLength(seen, tag);
    var tail := seen[e..] + text;
    assert seen + text == seen[..e] + tail;
    var i, j := Find(tail, tag), Find(seen + text, tag);
    if i != -1 { AtAppend(seen[..e], tail, tag, e + i); }
    if j != -1 {
      NoTagBeforeHold(seen, text, tag, j);
      AtAppend(seen[..e], tail, tag, j);
    }
    var h := HoldLength(seen + text, tag);
    HoldStaysBehind(seen, text, tag, h);
    forall k: nat | k <= |tail| && k < |tag|
      ensures EndsWith(tail, tag[..k]) <==> EndsWith(seen + text, tag[..k])
    {
      EndsWithTail(seen[..e], tail, tag[..k]);
    }
    HoldUnique(tail, tag, h);
  }

  /** The suffix of `s` that could still become the tag. */
  function Held(s: string, tag: string): string
    requires tag != ""
  {
    s[|s| - HoldLength(s, tag)..]
  }

  /** What precedes the held-back suffix. */
  function Free(s: string, tag: string): string
    requires tag != ""
  {
    s[..|s| - HoldLength(s, tag)]
  }

  lemma FreeHeld(s: string, tag: string)
    requires tag != ""
    ensures Free(s, tag) + Held(s, tag) == s && |Held(s, tag)| == HoldLength(s, tag)
    ensures Holds(s, tag, |Held(s, tag)|)
  {
  }

  /** Nothing is found in nothing, and nothing is held back. */
  lemma EmptyHolds(tag: string)
    requires tag != ""
    ensures Find("", tag) == -1 && Held("", tag) == "" && Free("", tag) == ""
  {
    hide FindFrom;
  }

  lemma FreeHeldAre(s: string, tag: string, free: string, held: string)
    requires tag != "" && s == free + held && |held| == HoldLength(s, tag)
    ensures Free(s, tag) == free && Held(s, tag) == held
  {
  }

  /** `HoldSuffices` in terms of what is free and what is held. */
  lemma Rejoin(seen: string, text: string, tag: string)
    requires tag != "" && Find(seen, tag) == -1
    ensures var free, data := Free(seen, tag), Held(seen, tag) + text;
            && seen + text == free + data
            && Find(seen + text, tag) == (if Find(data, tag) == -1 then -1 else |free| + Find(data, tag))
            && HoldLength(data, tag) == HoldLength(seen + text, tag)
  {
    HoldSuffices(seen, text, tag);
    hide Find, FindFrom, HoldLength, HoldFrom, Holds, At, EndsWith;
    FreeHeld(seen, tag);
    Assoc(Free(seen, tag), Held(seen, tag), text);
  }

  /** Still no tag: what is free grows, what is held is held of the little that was kept. */
  lemma HoldGrows(seen: string, text: string, tag: string)
    requires tag != "" && Find(seen, tag) == -1 && Find(Held(seen, tag) + text, tag) == -1
    ensures var data := Held(seen, tag) + text;
            && Find(seen + text, tag) == -1
            && Free(seen + text, tag) == Free(seen, tag) + Free(data, tag)
            && Held(seen + text, tag) == Held(data, tag)
  {
    hide *;
    Rejoin(seen, text, tag);
    var data := Held(seen, tag) + text;
    FreeHeld(data, tag);
    Assoc(Free(seen, tag), Free(data, tag), Held(data, tag));
    FreeHeldAre(seen + text, tag, Free(seen, tag) + Free(data, tag), Held(data, tag));
  }

  /** The text before, from and after a tag that `text` completes. */
  lemma HoldSplit(seen: string, text: string, tag: string)
    requires tag != "" && Find(seen, tag) == -1 && Find(Held(seen, tag) + text, tag) != -1
    ensures var data := Held(seen, tag) + text;
            && Find(seen + text, tag) != -1
            && Ahead(seen + text, tag) == Free(seen, tag) + Ahead(data, tag)
            && After(seen + text, tag) == After(data, tag)
            && From(seen + text, tag) == From(data, tag)
  {
    hide *;
    Rejoin(seen, text, tag);
    var free, data := Free(seen, tag), Held(seen, tag) + text;
    AroundTag(data, tag);
    var head, tail := Ahead(data, tag), After(data, tag);
    Assoc(free, head, tag + tail);
    Assoc(head, tag, tail);
    AroundTagIs(seen + text, tag, free + head, tail);
    AroundTagIs(data, tag, head, tail);
  }

  /** Only one suffix is the longest. */
  lemma HoldUnique(s: string, tag: string, h: nat)
    requires tag != "" && Holds(s, tag, h)
    ensures HoldLength(s, tag) == h
    ensures Held(s, tag) == s[|s| - h..] && Free(s, tag) == s[..|s| - h]
  {
  }

  // ------------------------------------------------------------- whitespace

  /** The characters Python's `str.strip` and the `\s` of its regular expressions remove. */
  predicate IsSpace(c: char) {
    var n := c as int;
    || 0x9 <= n <= 0xd || 0x1c <= n <= 0x20 || n == 0x85 || n == 0xa0 || n == 0x1680
    || 0x2000 <= n <= 0x200a || n == 0x2028 || n == 0x2029 || n == 0x202f || n == 0x205f
    || n == 0x3000
  }

  function LStrip(s: string): (r: string)
    ensures |r| <= |s| && r == s[|s| - |r|..]
    ensures r != "" ==> !IsSpace(r[0])
    ensures forall k :: 0 <= k < |s| - |r| ==> IsSpace(s[k])
  {
    if s != "" && IsSpace(s[0]) then LStrip(s[1..]) else s
  }

  function RStrip(s: string): (r: string)
    ensures |r| <= |s| && r == s[..|r|]
    ensures r != "" ==> !IsSpace(r[|r| - 1])
    ensures forall k :: |r| <= k < |s| ==> IsSpace(s[k])
  {
    if s != "" && IsSpace(s[|s| - 1]) then RStrip(s[..|s| - 1]) else s
  }

  function Strip(s: string): (r: string)
    ensures r != "" ==> !IsSpace(r[0]) && !IsSpace(r[|r| - 1])
  {
    RStrip(LStrip(s))
  }

  lemma StripTwice(s: string)
    ensures Strip(Strip(s)) == Strip(s)
  {
    var l, r := LStrip(s), Strip(s);
    if r != "" {
      assert r[0] == l[0];
      assert LStrip(r) == r && RStrip(r) == r;
    }
  }

  /** `part` is `s` less some whitespace at either end. */
  ghost predicate Trimmed(s: string, part: string) {
    exists lo: nat, hi: nat :: lo <= hi <= |s| && part == s[lo..hi] && BlankOutside(s, lo, hi)
  }

  ghost predicate BlankOutside(s: string, lo: nat, hi: nat) {
    && (forall k :: 0 <= k < lo <= |s| ==> IsSpace(s[k]))
    && (forall k :: 0 <= hi <= k < |s| ==> IsSpace(s[k]))
  }

  lemma StripTrims(s: string)
    ensures Trimmed(s, Strip(s))
  {
    var l := LStrip(s);
    var r := RStrip(l);
    var lo: nat := |s| - |l|;
    assert l == s[lo..] && r == l[..|r|];
    hide IsSpace, LStrip, RStrip, Trimmed;
    TrimmedAt(s, lo, |r|);
  }

  lemma TrimmedAt(s: string, lo: nat, n: nat)
    requires lo + n <= |s|
    requires forall k :: 0 <= k < lo ==> IsSpace(s[k])
    requires forall k :: n <= k < |s[lo..]| ==> IsSpace(s[lo..][k])
    ensures Trimmed(s, s[lo..][..n])
  {
    hide IsSpace;
    SliceOfSlice(s, lo, |s|, 0, n);
    assert s[lo..][..n] == s[lo..lo + n];
    forall k | lo + n <= k < |s| ensures IsSpace(s[k]) {
      assert s[k] == s[lo..][k - lo];
    }
    assert BlankOutside(s, lo, lo + n);
  }

  /** Stripping cuts off only whitespace, so a tag with visible ends survives it. */
  lemma StripKeepsTag(s: string, tag: string)
    requires tag != "" && !IsSpace(tag[0]) && !IsSpace(tag[|tag| - 1])
    ensures Find(Strip(s), tag) == -1 <==> Find(s, tag) == -1
  {
    StripTrims(s);
    hide Strip, FindFrom, IsSpace;
    var lo: nat, hi: nat :| lo <= hi <= |s| && Strip(s) == s[lo..hi] && BlankOutside(s, lo, hi);
    InSlice(s, lo, hi, tag);
  }

  lemma InSlice(s: string, lo: nat, hi: nat, tag: string)
    requires lo <= hi <= |s| && BlankOutside(s, lo, hi)
    requires tag != "" && !IsSpace(tag[0]) && !IsSpace(tag[|tag| - 1])
    ensures Find(s[lo..hi], tag) == -1 <==> Find(s, tag) == -1
  {
    var i, j := Find(s, tag), Find(s[lo..hi], tag);
    hide FindFrom, IsSpace;
    if i != -1 {
      AtChar(s, tag, i, 0);
      AtChar(s, tag, i, |tag| - 1);
      AtSlice(s, lo, hi, tag, i - lo);
    }
    AtSlice(s, lo, hi, tag, j);
  }

  /** The whitespace that `bytes.strip` removes by default. */
  const BLANKS := {' ', '\t', '\n', '\r', '\U{b}', '\U{c}'}

  function LTrim(s: string, cs: set<char>): (r: string)
    ensures |r| <= |s| && r == s[|s| - |r|..] && (r != "" ==> r[0] !in cs)
  {
    if s != "" && s[0] in cs then LTrim(s[1..], cs) else s
  }

  function RTrim(s: string, cs: set<char>): (r: string)
    ensures |r| <= |s| && r == s[..|r|] && (r != "" ==> r[|r| - 1] !in cs)
  {
    if s != "" && s[|s| - 1] in cs then RTrim(s[..|s| - 1], cs) else s
  }

  lemma {:induction false} LTrimCuts(s: string, cs: set<char>)
    ensures forall k :: 0 <= k < |s| - |LTrim(s, cs)| ==> s[k] in cs
  {
    if s != "" && s[0] in cs {
      LTrimCuts(s[1..], cs);
      assert forall k :: 0 < k < |s| ==> s[k] == s[1..][k - 1];
    }
  }

  lemma {:induction false} RTrimCuts(s: string, cs: set<char>)
    ensures forall k :: |RTrim(s, cs)| <= k < |s| ==> s[k] in cs
  {
    if s != "" && s[|s| - 1] in cs {
      RTrimCuts(s[..|s| - 1], cs);
      assert forall k :: 0 <= k < |s| - 1 ==> s[k] == s[..|s| - 1][k];
    }
  }

  /** Trimming cuts characters of the set and no others, and all of them at either end. */
  lemma TrimBothCuts(s: string, cs: set<char>) returns (lo: nat, hi: nat)
    ensures lo <= hi <= |s| && TrimBoth(s, cs) == s[lo..hi]
    ensures forall k :: 0 <= k < |s| && !(lo <= k < hi) ==> s[k] in cs
    ensures lo < hi ==> s[lo] !in cs && s[hi - 1] !in cs
  {
    var r := RTrim(s, cs);
    LTrimCuts(r, cs);
    RTrimCuts(s, cs);
    lo, hi := |r| - |LTrim(r, cs)|, |r|;
    hide LTrim, RTrim;
    assert forall k :: 0 <= k < hi ==> s[k] == r[k];
  }

  /** `bytes.strip`. */
  function TrimBoth(s: string, cs: set<char>): (r: string)
    ensures |r| <= |s|
  {
    LTrim(RTrim(s, cs), cs)
  }

  /** `s.lstrip("\n")`. */
  function LStripNewlines(s: string): (r: string)
    ensures |r| <= |s| && r == s[|s| - |r|..]
    ensures r != "" ==> r[0] != '\n'
  {
    if s != "" && s[0] == '\n' then LStripNewlines(s[1..]) else s
  }

  /** Only line breaks are cut off. */
  lemma {:induction false} LStripNewlinesCuts(s: string)
    ensures forall k :: 0 <= k < |s| - |LStripNewlines(s)| ==> s[k] == '\n'
  {
    if s != "" && s[0] == '\n' {
      LStripNewlinesCuts(s[1..]);
      assert forall k :: 0 < k < |s| ==> s[k] == s[1..][k - 1];
    }
  }

  lemma {:induction false} LStripNewlinesAppend(a: string, b: string)
    ensures LStripNewlines(a + b) ==
            if LStripNewlines(a) == "" then LStripNewlines(b) else LStripNewlines(a) + b
  {
    if a == "" {
      assert a + b == b;
    } else if a[0] == '\n' {
      var tail := a[1..];
      assert (a + b)[1..] == tail + b;
      assert LStripNewlines(a + b) == LStripNewlines(tail + b);
      LStripNewlinesAppend(tail, b);
    }
  }

  // ------------------------------------------------------------ concatenation

  function Concat(chunks: seq<string>): string {
    if chunks == [] then "" else Concat(chunks[..|chunks| - 1]) + chunks[|chunks| - 1]
  }
}
