/**
 * Breadcrumbs for the page header: the supplied items, or crumbs generated
 * from the current pathname. Each generated crumb but the last links to the
 * path so far; labels are title-cased segment words.
 */
module Breadcrumbs {
  import opened Wrappers
  import opened Strings

  datatype Crumb = Crumb(text: string, href: Option<string>)

  /** The non-empty `/`-separated pieces of a path. */
  function Segments(pathname: string): (segs: seq<string>)
    ensures forall i :: 0 <= i < |segs| ==> |segs[i]| > 0 && '/' !in segs[i]
  {
    DropEmpty(Split(pathname, '/'))
  }

  /**
   * The segments of two paths joined by a slash are the segments of each:
   * the slash only separates, so repeated and trailing slashes add nothing.
   */
  lemma SegmentsAppend(a: string, b: string)
    ensures Segments(a + "/" + b) == Segments(a) + Segments(b)
  {
    SplitAppend(a, b, '/');
    DropEmptyAppend(Split(a, '/'), Split(b, '/'));
  }

  /** The empty path has no segments. */
  lemma NoSegments()
    ensures Segments("") == []
  {
    assert Split("", '/') == [""];
  }

  /** A trailing slash adds no segment. */
  lemma TrailingSlashAddsNothing(a: string)
    ensures Segments(a + "/") == Segments(a)
  {
    SegmentsAppend(a, "");
    NoSegments();
    assert a + "/" + "" == a + "/";
  }

  /** A doubled slash counts as one. */
  lemma DoubleSlashAddsNothing(a: string, b: string)
    ensures Segments(a + "//" + b) == Segments(a + "/" + b)
  {
    var slash: string := "/";
    assert slash + slash == "//";
    Regroup(a, slash, slash, b);
    SegmentsAppend(a + slash, b);
    TrailingSlashAddsNothing(a);
    SegmentsAppend(a, b);
  }

  lemma Regroup<T>(a: seq<T>, x: seq<T>, y: seq<T>, b: seq<T>)
    ensures a + x + y + b == a + (x + y) + b
  {
  }

  /** Drops a first segment equal to `dashboard`, once. */
  function DropDashboard(segs: seq<string>): (r: seq<string>)
    ensures |segs| > 0 && segs[0] == "dashboard" ==> r == segs[1..]
    ensures !(|segs| > 0 && segs[0] == "dashboard") ==> r == segs
  {
    if |segs| > 0 && segs[0] == "dashboard" then segs[1..] else segs
  }

  /** First character upper-cased, the rest as is (`charAt(0).toUpperCase() + slice(1)`). */
  function Capitalize(word: string): (r: string)
    ensures |r| == |word|
    ensures |word| > 0 ==> r[0] == UpperChar(word[0]) && r[1..] == word[1..]
  {
    if |word| == 0 then "" else [UpperChar(word[0])] + word[1..]
  }

  function CapitalizeAll(words: seq<string>): (r: seq<string>)
    ensures |r| == |words|
    ensures forall i :: 0 <= i < |words| ==> r[i] == Capitalize(words[i])
  {
    if |words| == 0 then [] else [Capitalize(words[0])] + CapitalizeAll(words[1..])
  }

  /** `employees-management` becomes `Employees Management`. */
  function Label(segment: string): string {
    Join(CapitalizeAll(Split(segment, '-')), " ")
  }

  /**
   * A label's words are the segment's dash-separated pieces, capitalised and
   * one space apart: splitting the label on spaces gives them back.
   */
  lemma LabelWords(segment: string)
    requires ' ' !in segment
    ensures Split(Label(segment), ' ') == CapitalizeAll(Split(segment, '-'))
    ensures |Split(Label(segment), ' ')| == |Split(segment, '-')|
  {
    var pieces := Split(segment, '-');
    var words := CapitalizeAll(pieces);
    forall i | 0 <= i < |words|
      ensures ' ' !in words[i]
    {
      assert forall k :: 0 <= k < |pieces[i]| ==> pieces[i][k] in segment by {
        JoinSplit(segment, '-');
        PieceInJoin(pieces, "-", i);
      }
    }
    SplitJoin(words, ' ');
  }

  /** Every character of a piece occurs in the joined string. */
  lemma {:induction false} PieceInJoin(xs: seq<string>, sep: string, i: nat)
    requires i < |xs|
    ensures forall k :: 0 <= k < |xs[i]| ==> xs[i][k] in Join(xs, sep)
    decreases |xs|
  {
    if |xs| > 1 {
      if i > 0 {
        PieceInJoin(xs[1..], sep, i - 1);
        assert xs[1..][i - 1] == xs[i];
      }
      assert Join(xs, sep) == xs[0] + sep + Join(xs[1..], sep);
    }
  }

  /** The path the loop has built after the given segments: `/` before each one. */
  function PathOf(segs: seq<string>): string
    decreases |segs|
  {
    if |segs| == 0 then "" else PathOf(segs[..|segs| - 1]) + "/" + segs[|segs| - 1]
  }

  /** The crumb the loop pushes for segment `i`: a link unless it is the last. */
  function CrumbAt(segs: seq<string>, i: nat): Crumb
    requires i < |segs|
  {
    Crumb(Label(segs[i]), if i == |segs| - 1 then None else Some(PathOf(segs[..i + 1])))
  }

  /**
   * The `forEach` loop from segment `i` on, with `currentPath` the path built
   * so far; it yields one crumb per remaining segment, in order.
   */
  function CrumbsFrom(segs: seq<string>, i: nat, currentPath: string): (r: seq<Crumb>)
    requires i <= |segs| && currentPath == PathOf(segs[..i])
    ensures |r| == |segs| - i
    ensures forall j :: 0 <= j < |r| ==> r[j] == CrumbAt(segs, i + j)
    decreases |segs| - i
  {
    if i == |segs| then []
    else
      var path := currentPath + "/" + segs[i];
      assert path == PathOf(segs[..i + 1]) by {
        assert segs[..i + 1][..i] == segs[..i];
        assert segs[..i + 1][i] == segs[i];
      }
      var crumb := Crumb(Label(segs[i]), if i == |segs| - 1 then None else Some(path));
      assert crumb == CrumbAt(segs, i);
      var rest := CrumbsFrom(segs, i + 1, path);
      forall j | 0 < j < |rest| + 1
        ensures ([crumb] + rest)[j] == CrumbAt(segs, i + j)
      {
        assert ([crumb] + rest)[j] == rest[j - 1];
      }
      [crumb] + rest
  }

  /**
   * One crumb per segment, in order, labelled from it; each but the last
   * links to `/` followed by the segments up to it joined with `/`.
   */
  function CrumbsFor(segs: seq<string>): (r: seq<Crumb>)
    requires |segs| > 0
    ensures |r| == |segs|
    ensures r[|r| - 1].href == None
    ensures forall j :: 0 <= j < |r| ==> r[j].text == Label(segs[j])
    ensures forall j :: 0 <= j < |r| - 1 ==> r[j].href == Some("/" + Join(segs[..j + 1], "/"))
  {
    var r := CrumbsFrom(segs, 0, "");
    forall j | 0 <= j < |r| - 1
      ensures r[j].href == Some("/" + Join(segs[..j + 1], "/"))
    {
      assert r[j] == CrumbAt(segs, j);
      PathOfIsJoin(segs[..j + 1]);
    }
    r
  }

  /**
   * Crumbs for a pathname: a single unlinked `Dashboard` crumb when no
   * segment is left after dropping a leading `dashboard`, otherwise one
   * crumb per remaining segment.
   */
  function GenerateBreadcrumbs(pathname: string): (r: seq<Crumb>)
    ensures DropDashboard(Segments(pathname)) == [] ==> r == [Crumb("Dashboard", None)]
    ensures DropDashboard(Segments(pathname)) != [] ==> r == CrumbsFor(DropDashboard(Segments(pathname)))
  {
    var segs := DropDashboard(Segments(pathname));
    if |segs| == 0 then [Crumb("Dashboard", None)] else CrumbsFor(segs)
  }

  /** The loop's accumulated path is `/` followed by the segments joined with `/`. */
  lemma {:induction false} PathOfIsJoin(segs: seq<string>)
    requires |segs| > 0
    ensures PathOf(segs) == "/" + Join(segs, "/")
    decreases |segs|
  {
    if |segs| > 1 {
      var init := segs[..|segs| - 1];
      assert segs == init + [segs[|segs| - 1]];
      PathOfIsJoin(init);
      JoinSnoc(init, segs[|segs| - 1], "/");
    }
  }

  /** Supplied items are used verbatim, even an empty list; otherwise crumbs are generated. */
  function BreadcrumbItems(items: Option<seq<Crumb>>, pathname: string): (r: seq<Crumb>)
    ensures items.Some? ==> r == items.value
    ensures items.None? ==> r == GenerateBreadcrumbs(pathname) && |r| > 0
  {
    match items
    case Some(xs) => xs
    case None => GenerateBreadcrumbs(pathname)
  }

  /** Splitting a path built from clean segments gives the segments back. */
  lemma SegmentsOfBuiltPath(segs: seq<string>)
    requires |segs| > 0
    requires forall i :: 0 <= i < |segs| ==> |segs[i]| > 0 && '/' !in segs[i]
    ensures Segments("/" + Join(segs, "/")) == segs
  {
    var parts := [""] + segs;
    assert Join(parts, "/") == "/" + Join(segs, "/");
    assert forall i :: 0 <= i < |parts| ==> '/' !in parts[i];
    SplitJoin(parts, '/');
    assert parts[1..] == segs;
    assert DropEmpty(parts) == DropEmpty(segs);
    DropEmptyKeepsNonEmpty(segs);
  }

  /**
   * Following a crumb's link leads to a page whose segments are exactly the
   * segments up to that crumb.
   */
  lemma CrumbLinkRoundTrip(segs: seq<string>, j: nat)
    requires forall i :: 0 <= i < |segs| ==> |segs[i]| > 0 && '/' !in segs[i]
    requires j + 1 < |segs|
    ensures CrumbsFor(segs)[j].href.Some?
    ensures Segments(CrumbsFor(segs)[j].href.value) == segs[..j + 1]
  {
    var prefix := segs[..j + 1];
    assert forall i :: 0 <= i < |prefix| ==> prefix[i] == segs[i];
    SegmentsOfBuiltPath(prefix);
  }

  /** A path with no segments but `dashboard` shows the single `Dashboard` crumb. */
  lemma DashboardRootCrumb()
    ensures GenerateBreadcrumbs("/dashboard") == [Crumb("Dashboard", None)]
    ensures GenerateBreadcrumbs("/") == [Crumb("Dashboard", None)]
  {
    DashboardSegments();
    OnlyDashboardSegment("/dashboard");
    RootSegments();
    OnlyDashboardSegment("/");
  }

  /** A path whose only segment, if any, is `dashboard` gets the single root crumb. */
  lemma OnlyDashboardSegment(pathname: string)
    requires Segments(pathname) == [] || Segments(pathname) == ["dashboard"]
    ensures GenerateBreadcrumbs(pathname) == [Crumb("Dashboard", None)]
  {
  }

  /** `/dashboard` has the one segment `dashboard`. */
  lemma DashboardSegments()
    ensures Segments("/dashboard") == ["dashboard"]
  {
    var d := "dashboard";
    assert '/' !in d by {
      assert forall i :: 0 <= i < |d| ==> d[i] != '/';
    }
    assert FirstIndex("/dashboard", '/') == 0;
    assert "/dashboard"[1..] == d;
    assert Split("/dashboard", '/') == ["", d];
    assert DropEmpty(["", d]) == [d] by {
      assert ["", d][1..] == [d];
    }
  }

  /** `/` has no segments. */
  lemma RootSegments()
    ensures Segments("/") == []
  {
    assert FirstIndex("/", '/') == 0;
    assert Split("/", '/') == ["", ""];
  }
}
