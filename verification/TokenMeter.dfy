/** Counting the tokens of one streamed answer, line by line. */
module TokenMeter {
  import opened Text

  /** What a data line tells the meter. */
  datatype Payload =
    | Silent
    | Usage(prompt: nat, completion: nat)
    | Estimated(tokens: nat)

  type Decoder = string -> Payload

  function Told(line: string, decode: Decoder): Payload {
    if StartsWith(line, DATA) then decode(line[|DATA|..]) else Silent
  }

  predicate Counts(u: Payload) {
    u.Usage? && (u.prompt > 0 || u.completion > 0)
  }

  /** The last usage report with a positive count, if there is one. */
  function Reported(lines: seq<string>, decode: Decoder): Option<Payload> {
    if lines == [] then None
    else
      var n := |lines| - 1;
      var told := Told(lines[n], decode);
      if Counts(told) then Some(told) else Reported(lines[..n], decode)
  }

  function Estimate(lines: seq<string>, decode: Decoder): nat {
    if lines == [] then 0
    else
      var n := |lines| - 1;
      var told := Told(lines[n], decode);
      Estimate(lines[..n], decode) + if told.Estimated? then told.tokens else 0
  }

  /** What is recorded for a stream: the reported counts, or the estimates. A line without its
      newline is not counted. */
  function Recorded(seen: string, input: nat, decode: Decoder): (nat, nat) {
    var lines := SplitOn(seen, NEWLINE).pieces;
    var u := Reported(lines, decode);
    if u.Some? then
      ReportedCounts(lines, decode);
      (u.value.prompt, u.value.completion)
    else (input, Estimate(lines, decode))
  }

  ghost predicate LastAt(lines: seq<string>, u: Payload, i: int, decode: Decoder) {
    && 0 <= i < |lines| && Told(lines[i], decode) == u
    && forall j :: i < j < |lines| ==> !Counts(Told(lines[j], decode))
  }

  /** The report that counts is the last positive one. */
  lemma {:induction false} ReportedCounts(lines: seq<string>, decode: Decoder)
    ensures var u := Reported(lines, decode);
            && (u.None? <==> forall i :: 0 <= i < |lines| ==> !Counts(Told(lines[i], decode)))
            && (u.Some? ==> Counts(u.value))
            && (u.Some? ==> exists i :: LastAt(lines, u.value, i, decode))
  {
    if lines != [] {
      var n := |lines| - 1;
      ReportedCounts(lines[..n], decode);
      hide Told, Counts;
      var u := Reported(lines, decode);
      if Counts(Told(lines[n], decode)) {
        assert LastAt(lines, u.value, n, decode);
      } else if u.Some? {
        var i :| LastAt(lines[..n], u.value, i, decode);
        assert forall j :: i < j < n ==> lines[j] == lines[..n][j];
        assert LastAt(lines, u.value, i, decode);
      } else {
        assert forall i :: 0 <= i < n ==> lines[i] == lines[..n][i];
      }
    }
  }

  /** A line reports counts, of which at least one is positive. */
  predicate Reports(line: string, decode: Decoder) {
    StartsWith(line, DATA) &&
    match decode(line[|DATA|..])
    case Usage(prompt, completion) => prompt > 0 || completion > 0
    case _ => false
  }

  ghost predicate LastReport(lines: seq<string>, i: int, decode: Decoder) {
    && 0 <= i < |lines| && Reports(lines[i], decode)
    && forall j :: i < j < |lines| ==> !Reports(lines[j], decode)
  }

  /** What is recorded: the prompt's and the answer's tokens of the last line that reports any,
      in this order; without such a line the estimate for the request, and that for the answer. */
  lemma RecordedIs(seen: string, input: nat, decode: Decoder)
    ensures var lines := SplitOn(seen, NEWLINE).pieces;
            && (forall i :: LastReport(lines, i, decode) ==>
                  var u := decode(lines[i][|DATA|..]);
                  Recorded(seen, input, decode) == (u.prompt, u.completion))
            && ((forall i :: 0 <= i < |lines| ==> !Reports(lines[i], decode)) ==>
                  Recorded(seen, input, decode) == (input, Estimate(lines, decode)))
  {
    var lines := SplitOn(seen, NEWLINE).pieces;
    ReportedCounts(lines, decode);
    ReportsIff(decode);
    hide SplitOn, Told, Counts, Reported, Estimate, Reports;
    forall i | LastReport(lines, i, decode)
      ensures var u := Told(lines[i], decode); Recorded(seen, input, decode) == (u.prompt, u.completion)
    {
      var u := Reported(lines, decode).value;
      var k :| LastAt(lines, u, k, decode);
      assert k == i;
    }
  }

  lemma ReportsIff(decode: Decoder)
    ensures forall l :: Reports(l, decode) <==> Counts(Told(l, decode))
    ensures forall l :: Reports(l, decode) ==>
              |DATA| <= |l| && Told(l, decode) == decode(l[|DATA|..]) && Told(l, decode).Usage?
  {
  }

  /** Every line's estimate counts once, and only data lines have one. */
  lemma {:induction false} EstimateAdds(a: seq<string>, b: seq<string>, decode: Decoder)
    ensures Estimate(a + b, decode) == Estimate(a, decode) + Estimate(b, decode)
    decreases |b|
  {
    if b == [] {
      assert a + b == a;
    } else {
      var n := |b| - 1;
      EstimateAdds(a, b[..n], decode);
      assert (a + b)[..|a + b| - 1] == a + b[..n];
    }
  }

  lemma EstimateOne(line: string, decode: Decoder)
    ensures Estimate([line], decode)
         == if StartsWith(line, DATA) && decode(line[|DATA|..]).Estimated? then decode(line[|DATA|..]).tokens else 0
  {
    assert [line][..0] == [];
  }

  class StreamTokenMeter {
    const decode: Decoder
    const input: nat
    var buf: string
    var usage: Option<Payload>
    var out: nat
    ghost var seen: string

    /** Everything stored is a function of the bytes fed, not of the chunks. */
    ghost predicate Valid()
      reads this
    {
      var r := SplitOn(seen, NEWLINE);
      buf == r.rest && usage == Reported(r.pieces, decode) && out == Estimate(r.pieces, decode)
    }

    constructor (input: nat, decode: Decoder)
      ensures Valid() && seen == "" && this.input == input && this.decode == decode
    {
      this.input, this.decode := input, decode;
      buf, usage, out, seen := "", None, 0, "";
    }

    method Feed(chunk: string)
      requires Valid()
      modifies this
      ensures Valid() && seen == old(seen) + chunk
    {
      hide SplitOn, Told, Counts, Reported, Estimate;
      SplitAppend(seen, chunk, NEWLINE);
      ghost var before := SplitOn(seen, NEWLINE).pieces;
      var r := SplitOn(buf + chunk, NEWLINE);
      buf := r.rest;
      assert before + r.pieces[..0] == before;
      for i := 0 to |r.pieces|
        invariant buf == r.rest && seen == old(seen)
        invariant usage == Reported(before + r.pieces[..i], decode)
        invariant out == Estimate(before + r.pieces[..i], decode)
      {
        assert before + r.pieces[..i + 1] == before + r.pieces[..i] + [r.pieces[i]];
        LineAdds(before + r.pieces[..i], r.pieces[i], decode);
        var told := Told(r.pieces[i], decode);
        if told.Usage? {
          if Counts(told) { usage := Some(told); }
        } else if told.Estimated? {
          out := out + told.tokens;
        }
      }
      assert r.pieces[..|r.pieces|] == r.pieces;
      seen := seen + chunk;
    }

    method Finish() returns (prompt: nat, completion: nat)
      requires Valid()
      ensures (prompt, completion) == Recorded(seen, input, decode)
    {
      ReportedCounts(SplitOn(seen, NEWLINE).pieces, decode);
      if usage.Some? {
        return usage.value.prompt, usage.value.completion;
      }
      return input, out;
    }
  }

  lemma LineAdds(lines: seq<string>, line: string, decode: Decoder)
    ensures var told := Told(line, decode);
            && Reported(lines + [line], decode) == (if Counts(told) then Some(told) else Reported(lines, decode))
            && Estimate(lines + [line], decode)
               == Estimate(lines, decode) + (if told.Estimated? then told.tokens else 0)
            && (!told.Usage? ==> !Counts(told))
  {
    assert (lines + [line])[..|lines|] == lines;
  }
}
