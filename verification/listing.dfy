/** How every listing is turned into records: keep, in input order, exactly the lines the
    record parser accepts (`lines().filter_map(parse).collect()`), and give up with an
    empty list when the listing command failed. */
module Listing {
  import opened Base
  import opened Text

  /** `xs.iter().filter_map(f).collect()`. */
  function FilterMap<A, B>(xs: seq<A>, f: A -> Option<B>): (r: seq<B>)
    ensures |r| <= |xs|
    ensures forall i :: 0 <= i < |r| ==> exists j :: 0 <= j < |xs| && f(xs[j]) == Some(r[i])
  {
    if |xs| == 0 then []
    else
      var rest := FilterMap(xs[1..], f);
      var head := if f(xs[0]).Some? then [f(xs[0]).value] else [];
      assert forall i :: 0 <= i < |rest| ==> exists j :: 1 <= j < |xs| && f(xs[j]) == Some(rest[i]) by {
        forall i | 0 <= i < |rest|
          ensures exists j :: 1 <= j < |xs| && f(xs[j]) == Some(rest[i])
        {
          var j' :| 0 <= j' < |xs[1..]| && f(xs[1..][j']) == Some(rest[i]);
          assert f(xs[j' + 1]) == Some(rest[i]);
        }
      }
      head + rest
  }

  /** Filtering distributes over concatenation, so input order is kept: what a listing
      yields is what its first part yields followed by what the rest yields. */
  lemma {:induction false} FilterMapAppend<A, B>(a: seq<A>, b: seq<A>, f: A -> Option<B>)
    ensures FilterMap(a + b, f) == FilterMap(a, f) + FilterMap(b, f)
    decreases |a|
  {
    if |a| == 0 {
      assert a + b == b;
    } else {
      assert (a + b)[0] == a[0];
      assert (a + b)[1..] == a[1..] + b;
      FilterMapAppend(a[1..], b, f);
    }
  }

  /** A single line yields its record when the parser accepts it and nothing otherwise. */
  lemma FilterMapSingle<A, B>(x: A, f: A -> Option<B>)
    ensures FilterMap([x], f) == (if f(x).Some? then [f(x).value] else [])
  {
    assert [x][1..] == [];
  }

  /** When every line parses, the records are the lines' parses, one for one. */
  lemma {:induction false} FilterMapAllAccepted<A, B>(xs: seq<A>, f: A -> Option<B>)
    requires forall i :: 0 <= i < |xs| ==> f(xs[i]).Some?
    ensures |FilterMap(xs, f)| == |xs|
    ensures forall i :: 0 <= i < |xs| ==> FilterMap(xs, f)[i] == f(xs[i]).value
    decreases |xs|
  {
    if |xs| > 0 {
      FilterMapAllAccepted(xs[1..], f);
    }
  }

  /** The records parsed from a listing command's output: none when the command could not
      be run or exited unsuccessfully, else the accepted lines' records in order. */
  function ParseListing<T>(out: Output, parse: string -> Option<T>): (r: seq<T>)
    ensures !(out.Exited? && out.success) ==> r == []
    ensures out.Exited? && out.success ==> r == FilterMap(Lines(out.stdout), parse)
  {
    match SuccessStdout(out)
    case None => []
    case Some(text) => FilterMap(Lines(text), parse)
  }

  /** Reading back a listing printed one record per line gives the records, in order, as
      long as every printed line parses back to its record and carries no line break. */
  lemma ListingRoundTrip<T>(rows: seq<T>, lines: seq<string>, parse: string -> Option<T>, stderr: string)
    requires |lines| == |rows|
    requires forall i :: 0 <= i < |rows| ==> parse(lines[i]) == Some(rows[i])
    requires forall i :: 0 <= i < |lines| ==> NoLineBreak(lines[i])
    ensures ParseListing(Exited(true, Unlines(lines), stderr), parse) == rows
  {
    LinesOfPlainLines(lines);
    FilterMapParses(lines, rows, parse);
  }

  /** A line that a listing can carry as one line. */
  predicate NoLineBreak(l: string) {
    '\n' !in l && '\r' !in l
  }

  lemma LinesOfPlainLines(lines: seq<string>)
    requires forall i :: 0 <= i < |lines| ==> NoLineBreak(lines[i])
    ensures Lines(Unlines(lines)) == lines
  {
    forall i | 0 <= i < |lines| && |lines[i]| > 0
      ensures lines[i][|lines[i]| - 1] != '\r'
    {
      assert lines[i][|lines[i]| - 1] in lines[i];
    }
    LinesUnlines(lines);
  }

  lemma FilterMapParses<T>(lines: seq<string>, rows: seq<T>, parse: string -> Option<T>)
    requires |lines| == |rows|
    requires forall i :: 0 <= i < |rows| ==> parse(lines[i]) == Some(rows[i])
    ensures FilterMap(lines, parse) == rows
  {
    FilterMapAllAccepted(lines, parse);
  }
}
