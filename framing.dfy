/** How every loader frames the text of a file into data lines, and what
    it means for a loader to have parsed those lines one after another,
    stopping at the first line that raises. */
module Framing {
  import opened PyText

  /** A failed load: the exception raised, and the 0-based index of the
      data line being parsed when it was raised. */
  datatype LoadError = LoadError(line: nat, fault: Fault)

  /** `content.split('\n')[1:-1]`: the segments strictly between the
      header line and the final segment, in file order. */
  function DataLines(content: string): (lines: seq<string>)
    ensures |lines| == if Count(content, '\n') <= 1 then 0 else Count(content, '\n') - 1
    ensures forall k :: 0 <= k < |lines| ==> lines[k] == Split(content, '\n')[k + 1]
    ensures forall k :: 0 <= k < |lines| ==> '\n' !in lines[k]
  {
    InteriorShape(Split(content, '\n'));
    Interior(Split(content, '\n'))
  }

  /** A file made of a header, the data rows and a final segment, all
      joined by newlines, frames back into exactly those rows. With an
      empty final segment this is a file ending in a newline; with a
      non-empty one, the unterminated last row is dropped as well. */
  lemma DataLinesOfFile(header: string, rows: seq<string>, last: string)
    requires '\n' !in header && '\n' !in last
    requires forall k :: 0 <= k < |rows| ==> '\n' !in rows[k]
    ensures DataLines(Join([header] + rows + [last], '\n')) == rows
  {
    var parts := [header] + rows + [last];
    assert forall k :: 0 <= k < |parts| ==> '\n' !in parts[k] by {
      forall k | 0 <= k < |parts| ensures '\n' !in parts[k] {
        if 0 < k < |parts| - 1 { assert parts[k] == rows[k - 1]; }
      }
    }
    SplitJoin(parts, '\n');
    assert Interior(parts) == rows;
  }

  /** Every line produced exactly the parsed value at the same position. */
  ghost predicate ParsedAll<R>(lines: seq<string>, parse: string -> Result<R, Fault>, out: seq<R>)
  {
    |out| == |lines| && forall k :: 0 <= k < |lines| ==> parse(lines[k]) == Ok(out[k])
  }

  /** The line `e.line` raised `e.fault`, and every line before it parsed. */
  ghost predicate FailsFirstAt<R>(lines: seq<string>, parse: string -> Result<R, Fault>, e: LoadError)
  {
    e.line < |lines| && parse(lines[e.line]) == Err(e.fault) &&
    forall k :: 0 <= k < e.line ==> parse(lines[k]).Ok?
  }

  /** `r` is what a loop that parses `lines` in order and appends each
      result returns: all the values, or the first exception. */
  ghost predicate Loaded<R>(lines: seq<string>, parse: string -> Result<R, Fault>, r: Result<seq<R>, LoadError>)
  {
    match r
    case Ok(out) => ParsedAll(lines, parse, out)
    case Err(e) => FailsFirstAt(lines, parse, e)
  }

  /** The loop every single-list loader runs over its data lines: parse
      each line in order and append the value, stopping at the first line
      that raises. */
  method LoadLines<R>(lines: seq<string>, parse: string -> Result<R, Fault>) returns (r: Result<seq<R>, LoadError>)
    ensures Loaded(lines, parse, r)
    ensures lines == [] ==> r == Ok([])
  {
    var data: seq<R> := [];
    for i := 0 to |lines|
      invariant |data| == i
      invariant forall k :: 0 <= k < i ==> parse(lines[k]) == Ok(data[k])
    {
      var value := parse(lines[i]);
      if value.Err? {
        return Err(LoadError(i, value.error));
      }
      data := data + [value.value];
    }
    return Ok(data);
  }

  /** A load succeeds exactly when every line parses. */
  lemma LoadedOkIff<R>(lines: seq<string>, parse: string -> Result<R, Fault>, r: Result<seq<R>, LoadError>)
    requires Loaded(lines, parse, r)
    ensures r.Ok? <==> forall k :: 0 <= k < |lines| ==> parse(lines[k]).Ok?
  {
  }

  /** `Loaded` leaves no choice: the lines determine the outcome. */
  lemma LoadedUnique<R>(lines: seq<string>, parse: string -> Result<R, Fault>, r1: Result<seq<R>, LoadError>, r2: Result<seq<R>, LoadError>)
    requires Loaded(lines, parse, r1) && Loaded(lines, parse, r2)
    ensures r1 == r2
  {
    if r1.Ok? && r2.Ok? {
      forall k | 0 <= k < |lines| ensures r1.value[k] == r2.value[k] {
        assert parse(lines[k]) == Ok(r1.value[k]) && parse(lines[k]) == Ok(r2.value[k]);
      }
      assert r1.value == r2.value;
    }
  }
}
