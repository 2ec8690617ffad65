/**
 * The string-building parts of src/main/java/uk/ac/ed/inf/ClientIO.java:
 * the output file name built from the date, and the what3words lookup with
 * its (0, 0) fallback. The HTTP request and the JSON parsing behind the
 * lookup are one opaque function from endpoint to optional position.
 */
module Client {
  import opened Common
  import opened Geo

  /** All the pieces of s between occurrences of sep, empty ones included:
      n separators give n + 1 pieces. */
  function SplitPieces(s: string, sep: char): (r: seq<string>)
    ensures |r| >= 1
  {
    if |s| == 0 then [""]
    else
      var rest := SplitPieces(s[1..], sep);
      if s[0] == sep then [""] + rest else [[s[0]] + rest[0]] + rest[1..]
  }

  /** The pieces without their trailing empty ones. */
  function DropTrailingEmpty(parts: seq<string>): (r: seq<string>)
    ensures |r| <= |parts| && r == parts[..|r|]
    ensures r == [] || r[|r| - 1] != ""
    ensures forall i :: |r| <= i < |parts| ==> parts[i] == ""
  {
    if |parts| == 0 || parts[|parts| - 1] != "" then parts
    else DropTrailingEmpty(parts[..|parts| - 1])
  }

  /** String.split with a one-character pattern and no limit: a string
      without the separator is returned whole; otherwise the pieces, less
      the trailing empty ones. */
  function JavaSplit(s: string, sep: char): seq<string>
  {
    if sep !in s then [s] else DropTrailingEmpty(SplitPieces(s, sep))
  }

  /** getFileName: the date is month/day/year; day and month swap places.
      Fewer than three pieces raise ArrayIndexOutOfBoundsException. */
  function GetFileName(date: string): Outcome<string>
  {
    var splitDate := JavaSplit(date, '/');
    if |splitDate| < 3 then Threw(IndexOutOfBounds)
    else
      var day := splitDate[1];
      var month := splitDate[0];
      var year := splitDate[2];
      Returned("drone" + "-" + day + "-" + month + "-" + year + ".geojson")
  }

  lemma {:induction false} SplitPiecesWithoutSeparator(s: string, sep: char)
    requires sep !in s
    ensures SplitPieces(s, sep) == [s]
  {
    if |s| > 0 {
      SplitPiecesWithoutSeparator(s[1..], sep);
      assert s == [s[0]] + s[1..];
    }
  }

  lemma {:induction false} SplitPiecesAfterSeparator(a: string, b: string, sep: char)
    requires sep !in a
    ensures SplitPieces(a + [sep] + b, sep) == [a] + SplitPieces(b, sep)
  {
    if |a| == 0 {
      assert a + [sep] + b == [sep] + b;
      assert ([sep] + b)[1..] == b;
    } else {
      SplitPiecesAfterSeparator(a[1..], b, sep);
      assert (a + [sep] + b)[1..] == a[1..] + [sep] + b;
      assert a == [a[0]] + a[1..];
    }
  }

  /** The date App builds, month + "/" + day + "/" + year, gives the file
      name drone-day-month-year.geojson when the year is not empty. */
  lemma FileNameOfAppDate(month: string, day: string, year: string)
    requires '/' !in month && '/' !in day && '/' !in year
    requires year != ""
    ensures GetFileName(month + "/" + day + "/" + year)
         == Returned("drone-" + day + "-" + month + "-" + year + ".geojson")
  {
    var date := month + "/" + day + "/" + year;
    assert date == month + ['/'] + (day + ['/'] + year);
    SplitPiecesAfterSeparator(month, day + ['/'] + year, '/');
    SplitPiecesAfterSeparator(day, year, '/');
    SplitPiecesWithoutSeparator(year, '/');
    assert date[|month|] == '/';
    assert SplitPieces(date, '/') == [month, day, year];
    assert JavaSplit(date, '/') == [month, day, year];
    assert "drone" + "-" == "drone-";
  }

  /** With an empty year the trailing empty piece is dropped and the file
      name cannot be built. */
  lemma FileNameOfDateWithoutYear(month: string, day: string)
    requires '/' !in month && '/' !in day
    ensures GetFileName(month + "/" + day + "/").Threw?
  {
    var date := month + "/" + day + "/";
    assert date == month + ['/'] + (day + ['/'] + "");
    SplitPiecesAfterSeparator(month, day + ['/'] + "", '/');
    SplitPiecesAfterSeparator(day, "", '/');
    assert date[|month|] == '/';
    assert SplitPieces(date, '/') == [month, day, ""];
    assert [month, day, ""][..2] == [month, day];
    assert |JavaSplit(date, '/')| <= 2;
  }

  function CountOf(s: string, c: char): nat
  {
    if |s| == 0 then 0 else (if s[0] == c then 1 else 0) + CountOf(s[1..], c)
  }

  lemma {:induction false} SplitPiecesCount(s: string, sep: char)
    ensures |SplitPieces(s, sep)| == CountOf(s, sep) + 1
  {
    if |s| > 0 {
      SplitPiecesCount(s[1..], sep);
    }
  }

  /** A date with fewer than two separators raises an index error. */
  lemma FileNameNeedsTwoSeparators(date: string)
    requires CountOf(date, '/') < 2
    ensures GetFileName(date) == Threw(IndexOutOfBounds)
  {
    SplitPiecesCount(date, '/');
  }

  /** The what3words address as a URL path: every '.' becomes '/'. */
  function W3WPath(w3w: string): (r: string)
    ensures |r| == |w3w|
    ensures forall i :: 0 <= i < |w3w| ==> r[i] == (if w3w[i] == '.' then '/' else w3w[i])
  {
    if |w3w| == 0 then "" else [if w3w[0] == '.' then '/' else w3w[0]] + W3WPath(w3w[1..])
  }

  function W3WEndpoint(machineName: string, port: string, w3w: string): string
  {
    "http://" + machineName + ":" + port + "/words/" + W3WPath(w3w) + "/details.json"
  }

  lemma W3WPathWithoutDots(s: string)
    requires '.' !in s
    ensures W3WPath(s) == s
  {
    var r := W3WPath(s);
    forall i | 0 <= i < |s|
      ensures r[i] == s[i]
    {
      assert s[i] in s;
    }
  }

  lemma W3WPathConcat(a: string, b: string)
    ensures W3WPath(a + b) == W3WPath(a) + W3WPath(b)
  {
    var l, r := W3WPath(a + b), W3WPath(a) + W3WPath(b);
    forall i | 0 <= i < |l|
      ensures l[i] == r[i]
    {
      if i < |a| {
        assert (a + b)[i] == a[i];
      } else {
        assert (a + b)[i] == b[i - |a|];
      }
    }
  }

  lemma W3WPathDot(a: string, b: string)
    requires '.' !in b
    ensures W3WPath(a + "." + b) == W3WPath(a) + "/" + b
  {
    W3WPathConcat(a + ".", b);
    W3WPathConcat(a, ".");
    W3WPathWithoutDots(b);
    assert W3WPath(".") == "/";
  }

  /** A three-word address first.second.third is looked up under
      /words/first/second/third/details.json. */
  lemma EndpointOfThreeWords(machineName: string, port: string, first: string, second: string, third: string)
    requires '.' !in first && '.' !in second && '.' !in third
    ensures W3WEndpoint(machineName, port, first + "." + second + "." + third)
         == "http://" + machineName + ":" + port + "/words/" + first + "/" + second + "/" + third + "/details.json"
  {
    W3WPathDot(first + "." + second, third);
    W3WPathDot(first, second);
    W3WPathWithoutDots(first);
    assert W3WPath(first + "." + second + "." + third) == first + "/" + second + "/" + third;
  }

  /** getW3WCoordinates: the looked-up position, or (0, 0) when the lookup
      yields nothing. */
  function W3WCoordinates(lookup: string -> Option<Pos>, machineName: string, port: string, w3w: string): (p: Pos)
    ensures lookup(W3WEndpoint(machineName, port, w3w)).None? ==> p == Pos(0.0, 0.0)
    ensures lookup(W3WEndpoint(machineName, port, w3w)).Some? ==> p == lookup(W3WEndpoint(machineName, port, w3w)).value
  {
    var address := lookup(W3WEndpoint(machineName, port, w3w));
    var longitude := if address.Some? then address.value.lon else 0.0;
    var latitude := if address.Some? then address.value.lat else 0.0;
    Pos(longitude, latitude)
  }
}
