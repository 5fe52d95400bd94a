/** The route-pattern matcher of pkg/matcher/path.go.

    A request path, already split on '/', is compared segment by segment with a
    pattern such as "/transactions/:id/product/:productId": literal segments must
    be equal, a segment starting with ':' accepts any value, a query string on the
    last path segment is ignored, and the matched path rebuilt from the pattern's
    own segments must equal the pattern. */
module Matcher {
  import opened Text

  /** What the source needs of its arguments: only when the pattern is "/" does
      it read `pathParts[0]` (the `&&` stops before it otherwise), and then
      `pathParts[1]` too when the first part is empty. The model also asks for
      one part with any other pattern, which every `strings.Split` result has.
      Every `strings.Split` of a non-empty path satisfies this (see SplitPathIndexable). */
  predicate Indexable(pathParts: seq<string>, pattern: string)
  {
    |pathParts| >= 1 && (pattern == "/" && pathParts[0] == [] ==> |pathParts| >= 2)
  }

  lemma SplitPathIndexable(path: string, pattern: string)
    requires path != []
    ensures Indexable(Split(path, '/'), pattern)
  {
    if Split(path, '/')[0] == [] {
      SplitEmptyFirstPiece(path, '/');
      SplitLeadingSeparator(path, '/');
    }
  }

  /** `strings.Split(segment, "?")[0]`: the segment without its query string. */
  function StripQuery(segment: string): string
  {
    Split(segment, '?')[0]
  }

  /** The path parts as the loop compares them: only the last one loses its query. */
  function LastStripped(pathParts: seq<string>): seq<string>
    requires |pathParts| >= 1
  {
    pathParts[..|pathParts| - 1] + [StripQuery(pathParts[|pathParts| - 1])]
  }

  /** `strings.HasPrefix(segment, ":")`: a parameter segment. */
  predicate IsParam(segment: string)
  {
    |segment| > 0 && segment[0] == ':'
  }

  /** A path segment is accepted by a pattern segment when they are equal or the
      pattern segment is a parameter. */
  predicate SegmentAgrees(pathPart: string, patternPart: string)
  {
    pathPart == patternPart || IsParam(patternPart)
  }

  /** What one accepted segment contributes to the rebuilt path: nothing when both
      are empty, otherwise "/" and the pattern's own segment. */
  function Piece(pathPart: string, patternPart: string): string
  {
    if pathPart == [] && patternPart == [] then [] else "/" + patternPart
  }

  /** The path rebuilt from accepted segments (the source's `mountedMatch`). */
  function Mounted(pathParts: seq<string>, patternParts: seq<string>): string
    requires |pathParts| == |patternParts|
    decreases |pathParts|
  {
    if |pathParts| == 0 then []
    else
      var n := |pathParts| - 1;
      Mounted(pathParts[..n], patternParts[..n]) + Piece(pathParts[n], patternParts[n])
  }

  /** Rebuilding one more segment appends its piece. */
  lemma MountedStep(pathParts: seq<string>, patternParts: seq<string>, i: nat)
    requires |pathParts| == |patternParts| && i < |pathParts|
    ensures Mounted(pathParts[..i + 1], patternParts[..i + 1])
         == Mounted(pathParts[..i], patternParts[..i]) + Piece(pathParts[i], patternParts[i])
  {
    assert pathParts[..i + 1][..i] == pathParts[..i];
    assert patternParts[..i + 1][..i] == patternParts[..i];
  }

  /** The root pattern "/" splits into two empty parts. */
  lemma RootSplit()
    ensures Split("/", '/') == [[], []]
  {
    assert "/" == [] + ['/'] + [];
    SplitAround([], '/', []);
  }

  /** When a path matches a pattern: the root special case, or equal segment
      counts, every segment accepted, and the rebuilt path equal to the pattern. */
  predicate Matches(pathParts: seq<string>, pattern: string)
    requires Indexable(pathParts, pattern)
  {
    || (pattern == "/" && pathParts[0] == [] && pathParts[1] == [])
    || (var patternParts := Split(pattern, '/');
        |pathParts| == |patternParts| && SegmentsMatch(LastStripped(pathParts), patternParts, pattern))
  }

  /** Every segment accepted and the rebuilt path equal to the pattern. */
  predicate SegmentsMatch(stripped: seq<string>, patternParts: seq<string>, pattern: string)
    requires |stripped| == |patternParts|
  {
    && (forall i :: 0 <= i < |stripped| ==> SegmentAgrees(stripped[i], patternParts[i]))
    && Mounted(stripped, patternParts) == pattern
  }

  /** `MatchPath`: the loop accumulates `mountedMatch` and leaves early on the
      first rejected segment. */
  method MatchPath(pathParts: seq<string>, pattern: string) returns (matched: bool)
    requires Indexable(pathParts, pattern)
    ensures matched == Matches(pathParts, pattern)
  {
    if pattern == "/" && pathParts[0] == [] && pathParts[1] == [] {
      return true;
    }

    var patternPaths := Split(pattern, '/');

    if |pathParts| != |patternPaths| {
      return false;
    }

    var mountedMatch := [];
    ghost var stripped := LastStripped(pathParts);

    var i := 0;
    while i < |pathParts|
      invariant 0 <= i <= |pathParts|
      invariant AcceptedPrefix(stripped, patternPaths, i, mountedMatch)
    {
      var patternPath := patternPaths[i];
      var pathPart := pathParts[i];

      if i == |pathParts| - 1 {
        pathPart := Split(pathPart, '?')[0];
      }
      assert pathPart == stripped[i];

      if patternPath == pathPart && |patternPath| == 0 {
        AcceptOne(stripped, patternPaths, i, mountedMatch);
        i := i + 1;
        continue;
      }

      if pathPart == patternPath && !IsParam(patternPath) {
        AcceptOne(stripped, patternPaths, i, mountedMatch);
        mountedMatch := mountedMatch + ("/" + pathPart);
      } else if IsParam(patternPath) {
        AcceptOne(stripped, patternPaths, i, mountedMatch);
        mountedMatch := mountedMatch + ("/" + patternPath);
      } else {
        LiteralMismatch(pathParts, pattern, i);
        return false;
      }
      i := i + 1;
    }

    assert stripped[..i] == stripped && patternPaths[..i] == patternPaths;
    return mountedMatch == pattern;
  }

  /** The loop's invariant: the first `i` segments are accepted and `mounted`
      is their rebuilt path. */
  predicate AcceptedPrefix(stripped: seq<string>, patternParts: seq<string>, i: nat, mounted: string)
    requires |stripped| == |patternParts| && i <= |stripped|
  {
    && (forall k :: 0 <= k < i ==> SegmentAgrees(stripped[k], patternParts[k]))
    && mounted == Mounted(stripped[..i], patternParts[..i])
  }

  /** Accepting segment `i` extends the invariant by its piece. */
  lemma AcceptOne(stripped: seq<string>, patternParts: seq<string>, i: nat, mounted: string)
    requires |stripped| == |patternParts| && i < |stripped|
    requires AcceptedPrefix(stripped, patternParts, i, mounted)
    requires SegmentAgrees(stripped[i], patternParts[i])
    ensures AcceptedPrefix(stripped, patternParts, i + 1, mounted + Piece(stripped[i], patternParts[i]))
    ensures stripped[i] == [] && patternParts[i] == [] ==> mounted + Piece(stripped[i], patternParts[i]) == mounted
    ensures !(stripped[i] == [] && patternParts[i] == []) ==>
              mounted + Piece(stripped[i], patternParts[i]) == mounted + ("/" + patternParts[i])
  {
    MountedStep(stripped, patternParts, i);
  }

  /** The matcher applied to a raw path, as the router calls it. */
  predicate PathMatches(path: string, pattern: string)
    requires path != []
  {
    SplitPathIndexable(path, pattern);
    Matches(Split(path, '/'), pattern)
  }

  // ---------------------------------------------------------------------------
  // Properties of the matcher

  /** Every rebuilt path is empty or starts with '/'. */
  lemma {:induction false} MountedRooted(pathParts: seq<string>, patternParts: seq<string>)
    requires |pathParts| == |patternParts|
    ensures var m := Mounted(pathParts, patternParts); m == [] || m[0] == '/'
    decreases |pathParts|
  {
    if |pathParts| > 0 {
      var n := |pathParts| - 1;
      MountedRooted(pathParts[..n], patternParts[..n]);
    }
  }

  /** A match certifies the pattern: it is empty or starts with '/', so a pattern
      such as "transactions" never matches anything. */
  lemma MatchImpliesRooted(pathParts: seq<string>, pattern: string)
    requires Indexable(pathParts, pattern)
    requires Matches(pathParts, pattern)
    ensures pattern == [] || pattern[0] == '/'
  {
    if pattern != "/" {
      MountedRooted(LastStripped(pathParts), Split(pattern, '/'));
    }
  }

  /** Segments that both come out empty contribute nothing to the rebuilt path. */
  lemma {:induction false} MountedAllEmpty(pathParts: seq<string>, patternParts: seq<string>)
    requires |pathParts| == |patternParts|
    requires forall i :: 0 <= i < |pathParts| ==> pathParts[i] == [] && patternParts[i] == []
    ensures Mounted(pathParts, patternParts) == []
    decreases |pathParts|
  {
    if |pathParts| > 0 {
      var n := |pathParts| - 1;
      MountedAllEmpty(pathParts[..n], patternParts[..n]);
    }
  }

  /** The root pattern "/" matches exactly the paths whose first two parts are
      empty: "/" itself, but also "//x"; it is the special case that accepts them. */
  lemma RootPattern(pathParts: seq<string>)
    requires Indexable(pathParts, "/")
    ensures Matches(pathParts, "/") <==> pathParts[0] == [] && pathParts[1] == []
  {
    var patternParts := Split("/", '/');
    RootSplit();
    if Matches(pathParts, "/") && !(pathParts[0] == [] && pathParts[1] == []) {
      var stripped := LastStripped(pathParts);
      assert SegmentAgrees(stripped[0], patternParts[0]);
      assert SegmentAgrees(stripped[1], patternParts[1]);
      MountedAllEmpty(stripped, patternParts);
      assert false;
    }
  }

  /** With any pattern other than "/", paths with a different number of segments
      never match: "/transactions/1/product" is not
      "/transactions/:id/product/:productId". */
  lemma SegmentCountMismatch(pathParts: seq<string>, pattern: string)
    requires Indexable(pathParts, pattern) && pattern != "/"
    requires |pathParts| != |Split(pattern, '/')|
    ensures !Matches(pathParts, pattern)
  {
  }

  /** A literal pattern segment that differs from the (query-stripped) path segment
      rejects the path. */
  lemma LiteralMismatch(pathParts: seq<string>, pattern: string, i: nat)
    requires Indexable(pathParts, pattern)
    requires |pathParts| == |Split(pattern, '/')| && i < |pathParts|
    requires !IsParam(Split(pattern, '/')[i])
    requires LastStripped(pathParts)[i] != Split(pattern, '/')[i]
    ensures !Matches(pathParts, pattern)
  {
    if pattern == "/" && pathParts[0] == [] && pathParts[1] == [] {
      RootSplit();
      SplitWithoutSeparator([], '?');
      assert false;
    }
  }

  /** The rebuilt path ignores the value of a segment the pattern makes a parameter. */
  lemma {:induction false} MountedIgnoresParam(pathParts: seq<string>, patternParts: seq<string>, i: nat, v: string)
    requires |pathParts| == |patternParts| && i < |pathParts| && IsParam(patternParts[i])
    ensures Mounted(pathParts[i := v], patternParts) == Mounted(pathParts, patternParts)
    decreases |pathParts|
  {
    var n := |pathParts| - 1;
    var changed := pathParts[i := v];
    var init, pinit := pathParts[..n], patternParts[..n];
    assert Mounted(changed, patternParts) == Mounted(changed[..n], pinit) + Piece(changed[n], patternParts[n]);
    assert Mounted(pathParts, patternParts) == Mounted(init, pinit) + Piece(pathParts[n], patternParts[n]);
    if i < n {
      assert changed[..n] == init[i := v];
      MountedIgnoresParam(init, pinit, i, v);
    } else {
      assert changed[..n] == init;
    }
  }

  /** Segment agreement and the rebuilt path ignore the value under a parameter. */
  lemma SegmentsMatchIgnoresParam(stripped: seq<string>, patternParts: seq<string>, pattern: string, i: nat, w: string)
    requires |stripped| == |patternParts| && i < |stripped| && IsParam(patternParts[i])
    ensures SegmentsMatch(stripped[i := w], patternParts, pattern) == SegmentsMatch(stripped, patternParts, pattern)
  {
    MountedIgnoresParam(stripped, patternParts, i, w);
    var changed := stripped[i := w];
    assert forall k :: 0 <= k < |stripped| ==>
      (SegmentAgrees(changed[k], patternParts[k]) <==> SegmentAgrees(stripped[k], patternParts[k]));
  }

  /** A parameter segment accepts any value: replacing the path part under a
      ':'-segment by any other value does not change the verdict. */
  lemma ParamAcceptsAnyValue(pathParts: seq<string>, pattern: string, i: nat, v: string)
    requires Indexable(pathParts, pattern) && i < |pathParts|
    requires |pathParts| == |Split(pattern, '/')| && IsParam(Split(pattern, '/')[i])
    ensures Indexable(pathParts[i := v], pattern)
    ensures Matches(pathParts[i := v], pattern) == Matches(pathParts, pattern)
  {
    var patternParts := Split(pattern, '/');
    var changed := pathParts[i := v];
    if pattern == "/" {
      RootSplit();
      assert false;
    }
    var n := |pathParts| - 1;
    var before, after := LastStripped(pathParts), LastStripped(changed);
    var w := if i == n then StripQuery(v) else v;
    assert after == before[i := w];
    SegmentsMatchIgnoresParam(before, patternParts, pattern, i, w);
    assert Matches(changed, pattern) == SegmentsMatch(after, patternParts, pattern);
    assert Matches(pathParts, pattern) == SegmentsMatch(before, patternParts, pattern);
  }

  /** A query string on the last segment is ignored (for every pattern but "/"):
      "/categories/1/products?name=test" matches "/categories/:id/products". */
  lemma QueryIgnoredOnLastSegment(pathParts: seq<string>, segment: string, query: string, pattern: string)
    requires |pathParts| >= 1 && '?' !in segment && pattern != "/"
    ensures Matches(pathParts[..|pathParts| - 1] + [segment + "?" + query], pattern)
         == Matches(pathParts[..|pathParts| - 1] + [segment], pattern)
  {
    var n := |pathParts| - 1;
    SplitFirstPiece(segment, '?', query);
    assert LastStripped(pathParts[..n] + [segment + "?" + query])
        == LastStripped(pathParts[..n] + [segment]);
  }

  /** ... but at the root it is not: "/?name=test" does not match "/", because the
      special case compares the raw second part and the general case rebuilds an
      empty path. */
  lemma QueryNotIgnoredAtRoot(query: string)
    ensures Matches([[], []], "/")
    ensures !Matches([[], "?" + query], "/")
  {
    RootPattern([[], "?" + query]);
  }

  /** A '?' in an earlier segment is not stripped: such a segment only matches
      a parameter, or a literal that itself contains '?'. */
  lemma QueryInEarlierSegment(pathParts: seq<string>, pattern: string, i: nat)
    requires Indexable(pathParts, pattern)
    requires |pathParts| == |Split(pattern, '/')| && i < |pathParts| - 1
    requires '?' in pathParts[i] && '?' !in pattern
    requires !IsParam(Split(pattern, '/')[i])
    ensures !Matches(pathParts, pattern)
  {
    var patternParts := Split(pattern, '/');
    if LastStripped(pathParts)[i] == patternParts[i] {
      SplitPieceChars(pattern, '/', i, '?');
      assert false;
    }
    LiteralMismatch(pathParts, pattern, i);
  }

  /** A well-formed pattern: a leading '/', no empty segment after it and no '?'. */
  predicate WellFormedPattern(pattern: string)
  {
    && |pattern| > 0 && pattern[0] == '/' && '?' !in pattern
    && var parts := Split(pattern, '/');
       forall i :: 1 <= i < |parts| ==> parts[i] != []
  }

  /** Rebuilding a pattern's own parts gives back their join. */
  lemma {:induction false} MountedSelf(parts: seq<string>)
    requires |parts| >= 1 && parts[0] == []
    requires forall i :: 1 <= i < |parts| ==> parts[i] != []
    ensures Mounted(parts, parts) == Join(parts, "/")
    decreases |parts|
  {
    var n := |parts| - 1;
    if n == 0 {
      assert Mounted(parts, parts) == Mounted([], []) + Piece([], []);
    } else {
      MountedSelf(parts[..n]);
    }
  }

  /** A well-formed pattern, and the root pattern, match their own split form,
      whose parameter segments match themselves. */
  lemma PatternMatchesItself(pattern: string)
    requires WellFormedPattern(pattern) || pattern == "/"
    ensures Indexable(Split(pattern, '/'), pattern)
    ensures Matches(Split(pattern, '/'), pattern)
  {
    var parts := Split(pattern, '/');
    SplitPathIndexable(pattern, pattern);
    if pattern == "/" {
      RootSplit();
    } else {
      var n := |parts| - 1;
      assert '?' !in parts[n] by {
        if '?' in parts[n] {
          SplitPieceChars(pattern, '/', n, '?');
        }
      }
      SplitWithoutSeparator(parts[n], '?');
      assert LastStripped(parts) == parts;
      SplitLeadingSeparator(pattern, '/');
      MountedSelf(parts);
      JoinSplit(pattern, '/');
    }
  }
}
