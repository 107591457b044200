/** Removing comments and trailing commas from a configuration file, and exactly when the
    result is free of both. */
module Jsonc {

  /** Outside a string, inside one, or behind a backslash inside one. */
  datatype Context = Code | Str | Escape

  predicate LineComment(s: string) {
    |s| > 1 && s[0] == '/' && s[1] == '/'
  }

  predicate BlockComment(s: string) {
    |s| > 1 && s[0] == '/' && s[1] == '*'
  }

  function AfterLine(s: string): (r: string)
    ensures |r| <= |s|
  {
    if s == "" || s[0] == '\r' || s[0] == '\n' then s else AfterLine(s[1..])
  }

  /** An unfinished block comment takes everything with it. */
  function AfterBlock(s: string): (r: string)
    ensures |r| <= |s|
  {
    if |s| < 2 then "" else if s[0] == '*' && s[1] == '/' then s[2..] else AfterBlock(s[1..])
  }

  predicate Blank(c: char) {
    c == ' ' || c == '\t' || c == '\r' || c == '\n'
  }

  predicate Bracket(c: char) {
    c == ']' || c == '}'
  }

  /** Blanks, then a closing bracket. */
  predicate Closes(s: string) {
    s != "" && if Blank(s[0]) then Closes(s[1..]) else Bracket(s[0])
  }

  predicate TrailingComma(s: string) {
    s != "" && s[0] == ',' && Closes(s[1..])
  }

  /** The next character is kept, or something is skipped. */
  datatype Turn = Keep(next: Context) | Skip(rest: string)

  function Next(s: string, ctx: Context): (t: Turn)
    requires s != ""
    ensures t.Skip? ==> ctx == Code && |t.rest| < |s|
  {
    match ctx
    case Escape => Keep(Str)
    case Str => Keep(if s[0] == '\\' then Escape else if s[0] == '"' then Code else Str)
    case Code =>
      if s[0] == '"' then Keep(Str)
      else if LineComment(s) then Skip(AfterLine(s[2..]))
      else if BlockComment(s) then Skip(AfterBlock(s[2..]))
      else if TrailingComma(s) then Skip(s[1..])
      else Keep(Code)
  }

  function Stripped(s: string, ctx: Context): string
    decreases |s|
  {
    if s == "" then ""
    else
      match Next(s, ctx)
      case Keep(next) => [s[0]] + Stripped(s[1..], next)
      case Skip(rest) => Stripped(rest, Code)
  }

  method StripJsonc(text: string) returns (out: string)
    ensures out == Stripped(text, Code)
  {
    hide Closes, AfterLine, AfterBlock;
    out := "";
    var i, inString, escaped := 0, false, false;
    assert text[0..] == text;
    while i < |text|
      invariant 0 <= i <= |text| && (escaped ==> inString)
      invariant out + Stripped(text[i..], In(inString, escaped)) == Stripped(text, Code)
    {
      var ch := text[i];
      Kept(out, text, i, In(inString, escaped));
      if inString {
        out := out + [ch];
        if escaped {
          escaped := false;
        } else if ch == '\\' {
          escaped := true;
        } else if ch == '"' {
          inString := false;
        }
        i := i + 1;
        continue;
      }
      if ch == '"' {
        inString := true;
        out := out + [ch];
        i := i + 1;
        continue;
      }
      if ch == '/' && i + 1 < |text| {
        if text[i + 1] == '/' {
          i := SkipLine(text, i + 2);
          continue;
        }
        if text[i + 1] == '*' {
          i := SkipBlock(text, i + 2);
          continue;
        }
      }
      if ch == ',' {
        var closes := ClosesAt(text, i + 1);
        if closes {
          i := i + 1;
          continue;
        }
      }
      out := out + [ch];
      i := i + 1;
    }
    assert out + "" == out;
  }

  function In(inString: bool, escaped: bool): Context {
    if !inString then Code else if escaped then Escape else Str
  }

  lemma Kept(out: string, text: string, i: nat, ctx: Context)
    requires i < |text|
    ensures var s := text[i..];
            && s[0] == text[i] && (|s| > 1 <==> i + 1 < |text|) && (i + 1 < |text| ==> s[1] == text[i + 1])
            && s[1..] == text[i + 1..] && (i + 1 < |text| ==> s[2..] == text[i + 2..])
            && match Next(s, ctx)
               case Keep(next) => out + Stripped(s, ctx) == (out + [text[i]]) + Stripped(text[i + 1..], next)
               case Skip(rest) => Stripped(s, ctx) == Stripped(rest, Code)
  {
    hide Next;
  }

  method SkipLine(text: string, start: nat) returns (i: nat)
    requires start <= |text|
    ensures start <= i <= |text| && text[i..] == AfterLine(text[start..])
  {
    i := start;
    while i < |text| && text[i] != '\r' && text[i] != '\n'
      invariant start <= i <= |text| && AfterLine(text[i..]) == AfterLine(text[start..])
    {
      assert text[i..][1..] == text[i + 1..];
      i := i + 1;
    }
  }

  /** The index after the comment; the source may step past the end, where its loop stops too. */
  method SkipBlock(text: string, start: nat) returns (i: nat)
    requires start <= |text|
    ensures start <= i <= |text| && text[i..] == AfterBlock(text[start..])
  {
    i := start;
    while i + 1 < |text| && !(text[i] == '*' && text[i + 1] == '/')
      invariant start <= i <= |text| && AfterBlock(text[i..]) == AfterBlock(text[start..])
    {
      assert text[i..][1..] == text[i + 1..];
      i := i + 1;
    }
    if i + 1 < |text| { assert text[i..][2..] == text[i + 2..]; }
    i := if i + 2 <= |text| then i + 2 else |text|;
  }

  method ClosesAt(text: string, start: nat) returns (closes: bool)
    requires start <= |text|
    ensures closes <==> Closes(text[start..])
  {
    var j := start;
    while j < |text| && Blank(text[j])
      invariant start <= j <= |text| && (Closes(text[j..]) <==> Closes(text[start..]))
    {
      assert text[j..][1..] == text[j + 1..];
      j := j + 1;
    }
    closes := j < |text| && Bracket(text[j]);
  }

  // ------------------------------------------------------ what is taken, exactly

  /** A line comment goes up to its line break, which stays, or to the end. */
  lemma {:induction false} LineEnds(s: string) returns (n: nat)
    ensures n <= |s| && AfterLine(s) == s[n..]
    ensures forall k :: 0 <= k < n ==> s[k] != '\r' && s[k] != '\n'
    ensures n < |s| ==> s[n] == '\r' || s[n] == '\n'
  {
    n := 0;
    if s != "" && s[0] != '\r' && s[0] != '\n' {
      var m := LineEnds(s[1..]);
      n := m + 1;
      assert forall k :: 0 < k < n ==> s[k] == s[1..][k - 1];
    }
  }

  /** The end mark of a block comment stands at `k`. */
  predicate EndsAt(s: string, k: int) {
    0 <= k < |s| - 1 && s[k] == '*' && s[k + 1] == '/'
  }

  /** A block comment goes up to and with its first end mark; without one, to the end. */
  lemma {:induction false} BlockEnds(s: string) returns (n: nat)
    ensures n <= |s| && AfterBlock(s) == s[n..]
    ensures forall k :: k < n - 2 ==> !EndsAt(s, k)
    ensures EndsAt(s, n - 2) || (n == |s| && forall k :: !EndsAt(s, k))
  {
    if |s| < 2 {
      n := |s|;
    } else if EndsAt(s, 0) {
      n := 2;
    } else {
      var m := BlockEnds(s[1..]);
      n := m + 1;
      assert forall k :: k > 0 ==> (EndsAt(s, k) <==> EndsAt(s[1..], k - 1));
    }
  }

  lemma BlockTaken(c: string, rest: string)
    requires forall k :: 0 <= k < |c| ==> !EndsAt(c + "*/", k)
    ensures AfterBlock(c + "*/" + rest) == rest
  {
    var s := c + "*/" + rest;
    var n := BlockEnds(s);
    assert EndsAt(s, |c|);
    assert forall k :: 0 <= k < |c| ==> (EndsAt(s, k) <==> EndsAt(c + "*/", k));
    assert s[|c| + 2..] == rest;
  }

  lemma LineTaken(c: string, rest: string)
    requires forall k :: 0 <= k < |c| ==> c[k] != '\r' && c[k] != '\n'
    requires rest != "" ==> rest[0] == '\r' || rest[0] == '\n'
    ensures AfterLine(c + rest) == rest
  {
    var s := c + rest;
    var n := LineEnds(s);
    assert forall k :: 0 <= k < |c| ==> s[k] == c[k];
    assert rest != "" ==> s[|c|] == rest[0];
    assert s[|c|..] == rest;
  }

  /** Comments vanish, and nothing else does with them. */
  lemma CommentsGone(c: string, rest: string)
    ensures (forall k :: 0 <= k < |c| ==> !EndsAt(c + "*/", k)) ==>
              Stripped("/*" + (c + "*/" + rest), Code) == Stripped(rest, Code)
    ensures (forall k :: 0 <= k < |c| ==> c[k] != '\r' && c[k] != '\n')
            && (rest != "" ==> rest[0] == '\r' || rest[0] == '\n') ==>
              Stripped("//" + (c + rest), Code) == Stripped(rest, Code)
  {
    if forall k :: 0 <= k < |c| ==> !EndsAt(c + "*/", k) {
      BlockTaken(c, rest);
      Opened('*', c + "*/" + rest);
    }
    if (forall k :: 0 <= k < |c| ==> c[k] != '\r' && c[k] != '\n')
       && (rest != "" ==> rest[0] == '\r' || rest[0] == '\n') {
      LineTaken(c, rest);
      Opened('/', c + rest);
    }
  }

  lemma Opened(mark: char, s: string)
    requires mark == '/' || mark == '*'
    ensures Stripped(['/', mark] + s, Code) == Stripped(if mark == '/' then AfterLine(s) else AfterBlock(s), Code)
  {
    var all := ['/', mark] + s;
    assert all[2..] == s;
    hide AfterLine, AfterBlock, TrailingComma;
    assert Next(all, Code) == Skip(if mark == '/' then AfterLine(s) else AfterBlock(s));
  }

  /** Only blanks stand in front of a closing bracket at `n`. */
  predicate BracketAt(s: string, n: int) {
    0 <= n < |s| && Bracket(s[n]) && forall k :: 0 <= k < n ==> Blank(s[k])
  }

  lemma {:induction false} ClosesIff(s: string)
    ensures Closes(s) <==> exists n :: BracketAt(s, n)
  {
    if s != "" {
      ClosesIff(s[1..]);
      assert forall n :: n > 0 ==> (BracketAt(s, n) <==> Blank(s[0]) && BracketAt(s[1..], n - 1)) by {
        assert forall k :: 0 < k < |s| ==> s[k] == s[1..][k - 1];
      }
      assert BracketAt(s, 0) <==> Bracket(s[0]);
      if Blank(s[0]) && Closes(s[1..]) {
        var n :| BracketAt(s[1..], n);
        assert BracketAt(s, n + 1);
      }
    }
  }

  /** A comma goes exactly if only blanks stand between it and a closing bracket. */
  lemma CommaGoneIff(s: string)
    ensures Stripped("," + s, Code)
         == if exists n :: BracketAt(s, n) then Stripped(s, Code) else "," + Stripped(s, Code)
  {
    ClosesIff(s);
    var all := "," + s;
    assert all[1..] == s;
    hide Closes, BracketAt, Stripped;
    assert Next(all, Code) == if Closes(s) then Skip(s) else Keep(Code);
    StrippedStep(all);
  }

  lemma StrippedStep(s: string)
    requires s != ""
    ensures Stripped(s, Code) == match Next(s, Code)
                                 case Keep(next) => [s[0]] + Stripped(s[1..], next)
                                 case Skip(rest) => Stripped(rest, Code)
  {
    hide Next;
  }

  // ------------------------------------------------------------- what is left

  /** Some comment stands outside the strings. */
  predicate HasComment(s: string, ctx: Context)
    decreases |s|
  {
    s != "" &&
    ((ctx == Code && (LineComment(s) || BlockComment(s)))
     || match Next(s, ctx)
        case Keep(next) => HasComment(s[1..], next)
        case Skip(rest) => HasComment(rest, Code))
  }

  /** Some comma outside strings and comments stands directly in front of a closing bracket. */
  predicate HasTrailingComma(s: string, ctx: Context)
    decreases |s|
  {
    s != "" &&
    ((ctx == Code && TrailingComma(s))
     || match Next(s, ctx)
        case Keep(next) => HasTrailingComma(s[1..], next)
        case Skip(rest) => HasTrailingComma(rest, Code))
  }

  /** The text of all string literals outside comments, quotes included. */
  function Literals(s: string, ctx: Context): string
    decreases |s|
  {
    if s == "" then ""
    else
      match Next(s, ctx)
      case Keep(next) => (if ctx != Code || s[0] == '"' then [s[0]] else "") + Literals(s[1..], next)
      case Skip(rest) => Literals(rest, Code)
  }

  lemma ClosingStart(s: string)
    requires Closes(s)
    ensures Next(s, Code) == Keep(Code) && Stripped(s, Code) != "" && Stripped(s, Code)[0] == s[0]
  {
  }

  /** A kept slash is never put in front of a slash or a star. */
  lemma NoNewComment(s: string)
    requires s != "" && s[0] == '/' && Next(s, Code).Keep?
    ensures var r := Stripped(s, Code); !LineComment(r) && !BlockComment(r)
  {
    if |s| > 1 && Next(s[1..], Code).Skip? {
      ClosingStart(s[1..][1..]);
    }
  }

  /** How the stripped text is read again: nothing in it starts a comment. */
  lemma ReadAgain(s: string, ctx: Context)
    requires s != "" && Next(s, ctx).Keep?
    ensures var r := Stripped(s, ctx);
            && r != "" && r[0] == s[0] && r[1..] == Stripped(s[1..], Next(s, ctx).next)
            && (ctx == Code ==> !LineComment(r) && !BlockComment(r))
            && Next(r, ctx) == if ctx == Code && TrailingComma(r) then Skip(r[1..]) else Next(s, ctx)
  {
    if ctx == Code && s[0] == '/' { NoNewComment(s); }
    hide Closes;
  }

  lemma {:induction false} NoCommentLeft(s: string, ctx: Context)
    ensures !HasComment(Stripped(s, ctx), ctx)
    decreases |s|
  {
    if s != "" {
      match Next(s, ctx)
      case Keep(next) =>
        ReadAgain(s, ctx);
        NoCommentLeft(s[1..], next);
        hide Next, Stripped;
      case Skip(rest) =>
        NoCommentLeft(rest, Code);
    }
  }

  /** String literals come through untouched and in order. */
  lemma {:induction false} LiteralsKept(s: string, ctx: Context)
    ensures Literals(Stripped(s, ctx), ctx) == Literals(s, ctx)
    decreases |s|
  {
    if s != "" {
      match Next(s, ctx)
      case Keep(next) =>
        ReadAgain(s, ctx);
        LiteralsKept(s[1..], next);
        hide Stripped;
      case Skip(rest) =>
        LiteralsKept(rest, Code);
    }
  }

  lemma {:induction false} NeverLonger(s: string, ctx: Context)
    ensures |Stripped(s, ctx)| <= |s|
    ensures HasComment(s, ctx) || HasTrailingComma(s, ctx) ==> |Stripped(s, ctx)| < |s|
    decreases |s|
  {
    if s != "" {
      match Next(s, ctx)
      case Keep(next) =>
        NeverLonger(s[1..], next);
      case Skip(rest) =>
        NeverLonger(rest, Code);
    }
  }

  lemma {:induction false} NothingToStrip(s: string, ctx: Context)
    requires !HasComment(s, ctx) && !HasTrailingComma(s, ctx)
    ensures Stripped(s, ctx) == s
    decreases |s|
  {
    if s != "" {
      NothingToStrip(s[1..], Next(s, ctx).next);
      assert [s[0]] + s[1..] == s;
    }
  }

  /** Text is returned unchanged exactly when it has neither comments nor trailing commas. */
  lemma UnchangedIff(s: string)
    ensures Stripped(s, Code) == s <==> !HasComment(s, Code) && !HasTrailingComma(s, Code)
  {
    NeverLonger(s, Code);
    if !HasComment(s, Code) && !HasTrailingComma(s, Code) { NothingToStrip(s, Code); }
  }

  // --------------------------------------------------- trailing commas that stay

  /** Blanks, comments and commas that are removed, then a closing bracket. */
  predicate Reaches(s: string)
    decreases |s|
  {
    s != "" &&
    match Next(s, Code)
    case Keep(_) => if Blank(s[0]) then Reaches(s[1..]) else Bracket(s[0])
    case Skip(rest) => Reaches(rest)
  }

  /** Some kept comma reaches a closing bracket once comments and other commas are gone. */
  predicate Leftover(s: string, ctx: Context)
    decreases |s|
  {
    s != "" &&
    match Next(s, ctx)
    case Keep(next) => (ctx == Code && s[0] == ',' && Reaches(s[1..])) || Leftover(s[1..], next)
    case Skip(rest) => Leftover(rest, Code)
  }

  lemma {:induction false} ReachesIff(s: string)
    ensures Closes(Stripped(s, Code)) <==> Reaches(s)
    decreases |s|
  {
    if s != "" {
      match Next(s, Code)
      case Keep(next) =>
        assert Stripped(s, Code)[1..] == Stripped(s[1..], next);
        if Blank(s[0]) { ReachesIff(s[1..]); }
      case Skip(rest) =>
        ReachesIff(rest);
    }
  }

  /** The result keeps a trailing comma exactly when the text has a comma that only comments or
      other trailing commas separate from its bracket. */
  lemma {:induction false} TrailingLeftIff(s: string, ctx: Context)
    ensures HasTrailingComma(Stripped(s, ctx), ctx) <==> Leftover(s, ctx)
    decreases |s|
  {
    if s != "" {
      match Next(s, ctx)
      case Keep(next) =>
        ReadAgain(s, ctx);
        TrailingLeftIff(s[1..], next);
        if ctx == Code && s[0] == ',' { ReachesIff(s[1..]); }
        hide Stripped, Closes, Reaches;
      case Skip(rest) =>
        TrailingLeftIff(rest, Code);
    }
  }

  /** The result has no comments, ever; it has no trailing commas, and stripping it again
      changes nothing, exactly when no comma of the text is left over. */
  lemma StrippedOnceIff(s: string)
    ensures var r := Stripped(s, Code);
            !HasComment(r, Code) && (Stripped(r, Code) == r <==> !Leftover(s, Code))
  {
    NoCommentLeft(s, Code);
    TrailingLeftIff(s, Code);
    UnchangedIff(Stripped(s, Code));
  }

  /** A comment between a comma and its bracket hides the comma. */
  lemma CommentHidesComma()
    ensures Stripped(",//\n]", Code) == ",\n]" && Leftover(",//\n]", Code)
  {
    var s := ",//\n]";
    assert s[1..] == "//\n]" && s[1..][2..] == "\n]";
    assert AfterLine("\n]") == "\n]";
    assert "\n]"[1..] == "]" && "]"[1..] == "";
    assert Stripped("]", Code) == "]" && Stripped("\n]", Code) == "\n]";
    assert Reaches("]") && Reaches("\n]") && Reaches(s[1..]);
  }
}
