/**
 * frontend/src/components/AppLayout.tsx: the breadcrumb trail built from the
 * current path — one crumb per non-empty path segment, each linking to the
 * path up to and including its segment, the last one shown as plain text.
 */
module AppLayout {
  import opened Strings

  /** One breadcrumb: its segment, the url it navigates to, and whether it is a link. */
  datatype Crumb = Crumb(segment: string, url: string, isLink: bool)

  /** `pathname.split('/').filter(i => i)`. */
  function Segments(pathname: string): (r: seq<string>)
    ensures forall i :: 0 <= i < |r| ==> r[i] != [] && '/' !in r[i]
    ensures forall p :: p in r <==> p in Split(pathname, '/') && p != []
  {
    SplitPieces(pathname, '/');
    NonEmptyMembers(Split(pathname, '/'));
    NonEmpty(Split(pathname, '/'))
  }

  /** A trailing slash adds no segment. */
  lemma SegmentsTrailingSlash(pathname: string)
    ensures Segments(pathname + "/") == Segments(pathname)
  {
    var empty: string := [];
    assert pathname + "/" == pathname + ['/'] + empty;
    SplitAround(pathname, empty, '/');
    NonEmptyInOrder(Split(pathname, '/'), [empty]);
    assert Split(pathname, '/') + [empty] == Split(pathname + "/", '/');
  }

  /** A doubled slash separates the same segments as a single one. */
  lemma SegmentsDoubledSlash(a: string, b: string)
    ensures Segments(a + "//" + b) == Segments(a + "/" + b)
  {
    var empty: string := [];
    var sa, sb := Split(a, '/'), Split(b, '/');
    assert a + "//" + b == a + ['/'] + (['/'] + b);
    assert a + "/" + b == a + ['/'] + b;
    assert ['/'] + b == empty + ['/'] + b;
    SplitAround(empty, b, '/');
    assert Split(empty, '/') == [empty];
    calc {
      Segments(a + "//" + b);
    == { SplitAround(a, ['/'] + b, '/'); }
      NonEmpty(sa + ([empty] + sb));
    == { NonEmptyInOrder(sa, [empty] + sb); }
      NonEmpty(sa) + NonEmpty([empty] + sb);
    == { NonEmptyInOrder([empty], sb); }
      NonEmpty(sa) + NonEmpty(sb);
    == { NonEmptyInOrder(sa, sb); SplitAround(a, b, '/'); }
      Segments(a + "/" + b);
    }
  }

  /** `"/" + array.slice(0, index + 1).join('/')`. */
  function CrumbUrl(segments: seq<string>, index: nat): string
    requires index < |segments|
  {
    "/" + Join(segments[..index + 1], '/')
  }

  /** One crumb per segment; every crumb but the last is a link. */
  function CrumbsOf(segments: seq<string>): seq<Crumb>
  {
    seq(|segments|, index requires 0 <= index < |segments| =>
      Crumb(segments[index], CrumbUrl(segments, index), index != |segments| - 1))
  }

  /** The breadcrumb items of a path. */
  function Breadcrumbs(pathname: string): (r: seq<Crumb>)
    ensures |r| == |Segments(pathname)|
    ensures forall i :: 0 <= i < |r| ==> r[i].segment == Segments(pathname)[i]
  {
    CrumbsOf(Segments(pathname))
  }

  lemma {:induction false} JoinSnoc(pieces: seq<string>, last: string, sep: char)
    requires |pieces| >= 1
    ensures Join(pieces + [last], sep) == Join(pieces, sep) + [sep] + last
  {
    if |pieces| == 1 {
      assert (pieces + [last])[1..] == [last];
    } else {
      assert (pieces + [last])[1..] == pieces[1..] + [last];
      JoinSnoc(pieces[1..], last, sep);
    }
  }

  /** Each crumb's url extends the previous one by "/" and its own segment. */
  lemma CrumbUrlStep(segments: seq<string>, i: nat)
    requires i + 1 < |segments|
    ensures CrumbUrl(segments, i + 1) == CrumbUrl(segments, i) + "/" + segments[i + 1]
  {
    assert segments[..i + 2] == segments[..i + 1] + [segments[i + 1]];
    JoinSnoc(segments[..i + 1], segments[i + 1], '/');
  }

  /** The nesting of `CrumbsNest`, for any list of segments. */
  lemma CrumbsOfNest(segments: seq<string>)
    ensures var r := CrumbsOf(segments);
      forall i :: 0 <= i < |r| ==> (r[i].isLink <==> i < |r| - 1)
    ensures var r := CrumbsOf(segments);
      |r| > 0 ==> r[0].url == "/" + r[0].segment
    ensures var r := CrumbsOf(segments);
      forall i :: 0 <= i < |r| - 1 ==> r[i + 1].url == r[i].url + "/" + r[i + 1].segment
  {
    var r := CrumbsOf(segments);
    if |r| > 0 {
      assert segments[..1] == [segments[0]];
    }
    forall i | 0 <= i < |r| - 1 ensures r[i + 1].url == r[i].url + "/" + r[i + 1].segment {
      CrumbUrlStep(segments, i);
    }
  }

  /**
   * Every crumb but the last is a link, and each crumb's url is the previous
   * crumb's url extended by "/" and its own segment; the first is "/" and the
   * first segment.
   */
  lemma CrumbsNest(pathname: string)
    ensures var r := Breadcrumbs(pathname);
      forall i :: 0 <= i < |r| ==> (r[i].isLink <==> i < |r| - 1)
    ensures var r := Breadcrumbs(pathname);
      |r| > 0 ==> r[0].url == "/" + r[0].segment
    ensures var r := Breadcrumbs(pathname);
      forall i :: 0 <= i < |r| - 1 ==> r[i + 1].url == r[i].url + "/" + r[i + 1].segment
  {
    CrumbsOfNest(Segments(pathname));
  }

  lemma {:induction false} NonEmptyOfNonEmpty(pieces: seq<string>)
    requires forall i :: 0 <= i < |pieces| ==> pieces[i] != []
    ensures NonEmpty(pieces) == pieces
  {
    if pieces != [] {
      NonEmptyOfNonEmpty(pieces[1..]);
      assert [pieces[0]] + pieces[1..] == pieces;
    }
  }

  /** The segments of a normalised path ("/" followed by non-empty segments joined by "/"). */
  lemma NormalisedPathSegments(segments: seq<string>)
    requires |segments| >= 1
    requires forall i :: 0 <= i < |segments| ==> segments[i] != [] && '/' !in segments[i]
    ensures Segments("/" + Join(segments, '/')) == segments
  {
    var joined := Join(segments, '/');
    assert "/" + joined == "" + ['/'] + joined;
    SplitAround("", joined, '/');
    SplitJoin(segments, '/');
    assert Split("", '/') == [""];
    var pieces := [""] + segments;
    assert pieces[0] == "" && pieces[1..] == segments;
    NonEmptyOfNonEmpty(segments);
  }

  /** The last crumb is plain text and links the whole segment list. */
  lemma LastCrumb(pathname: string)
    requires Segments(pathname) != []
    ensures var r := Breadcrumbs(pathname);
      r[|r| - 1].url == "/" + Join(Segments(pathname), '/') && !r[|r| - 1].isLink
  {
    var segments := Segments(pathname);
    assert segments[..|segments|] == segments;
  }

  /** The path "/" followed by the segments joined by "/". */
  function NormalisedPath(segments: seq<string>): string
  {
    "/" + Join(segments, '/')
  }

  /**
   * On a normalised path the crumbs are exactly its segments and the last
   * crumb, shown as plain text, has the path itself as its url.
   */
  lemma NormalisedPathCrumbs(segments: seq<string>)
    requires |segments| >= 1
    requires forall i :: 0 <= i < |segments| ==> segments[i] != [] && '/' !in segments[i]
    ensures Segments(NormalisedPath(segments)) == segments
    ensures Breadcrumbs(NormalisedPath(segments))[|segments| - 1].url == NormalisedPath(segments)
    ensures !Breadcrumbs(NormalisedPath(segments))[|segments| - 1].isLink
  {
    NormalisedPathSegments(segments);
    LastCrumb(NormalisedPath(segments));
  }
}
