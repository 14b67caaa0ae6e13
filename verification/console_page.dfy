/**
 * The console page's `projectSlug`: the project slug of a console URL path
 * of the form `/console/projects/<slug>/...`, or null.
 */
module ConsolePage {
  import opened Wrappers
  import opened Strings

  /** The fixed head of every path that names a project in the console. */
  const PROJECTS_PREFIX: string := "/console/projects/"

  /** `projectSlug` on the location's pathname; `None` stands for `null`.
      A JavaScript string is truthy exactly when it is non-empty. */
  function ProjectSlug(pathname: string): (slug: Option<string>)
    ensures slug.Some? ==> slug.value != "" && '/' !in slug.value
  {
    var path := Split(pathname, '/');
    if |path| < 5 || path[0] != "" || path[1] != "console" || path[2] != "projects" || path[3] == "" then None
    else SplitPieces(pathname, '/'); Some(path[3])
  }

  /** `head` opens `s`. */
  predicate StartsWith(s: string, head: string)
  {
    |head| <= |s| && s[..|head|] == head
  }

  /** The four leading pieces of a project path. */
  function ProjectPieces(x: string): seq<string>
  {
    ["", "console", "projects", x]
  }

  /** The prefix is the first three pieces joined, with the separator after them. */
  lemma PrefixPieces()
    ensures "" + "/" + "console" + "/" + "projects" + "/" == PROJECTS_PREFIX
  {
  }

  /** The four leading pieces hold no `/` when `x` holds none, and join to the
      prefix followed by `x`. */
  lemma ProjectPiecesJoin(x: string)
    requires '/' !in x
    ensures forall i :: 0 <= i < 4 ==> '/' !in ProjectPieces(x)[i]
    ensures Join(ProjectPieces(x), '/') == PROJECTS_PREFIX + x
  {
    var parts := ProjectPieces(x);
    JoinFour(parts, '/');
    PrefixPieces();
  }

  /** The pieces of `"/console/projects/" + x + "/" + rest`. */
  lemma SplitProjectPath(x: string, rest: string)
    requires '/' !in x
    ensures Split(PROJECTS_PREFIX + x + "/" + rest, '/') == ["", "console", "projects", x] + Split(rest, '/')
  {
    ProjectPiecesJoin(x);
    SplitJoinThen(ProjectPieces(x), '/', rest);
  }

  /** A found slug is the fourth piece of a path that opens with
      `/console/projects/<slug>/`. */
  lemma FoundSlugShape(pathname: string)
    requires ProjectSlug(pathname).Some?
    ensures StartsWith(pathname, PROJECTS_PREFIX + ProjectSlug(pathname).value + "/")
  {
    var x := ProjectSlug(pathname).value;
    var path := Split(pathname, '/');
    var tail := Join(path[4..], '/');
    assert pathname == PROJECTS_PREFIX + x + "/" + tail by {
      JoinSplit(pathname, '/');
      JoinFour(path, '/');
      PrefixPieces();
    }
    ConcatStartsWith(PROJECTS_PREFIX + x + "/", tail);
  }

  /** A string opens every string made by appending to it. */
  lemma ConcatStartsWith(head: string, tail: string)
    ensures StartsWith(head + tail, head)
  {
    assert (head + tail)[..|head|] == head;
  }

  /** Every path that opens with `/console/projects/<x>/`, for a non-empty `x`
      without `/`, yields `x`. */
  lemma ShapeYieldsSlug(pathname: string, x: string)
    requires x != "" && '/' !in x && StartsWith(pathname, PROJECTS_PREFIX + x + "/")
    ensures ProjectSlug(pathname) == Some(x)
  {
    var head := PROJECTS_PREFIX + x + "/";
    var rest := pathname[|head|..];
    assert pathname == PROJECTS_PREFIX + x + "/" + rest;
    SplitProjectPath(x, rest);
  }

  /** A slug is found exactly when the path is `/console/projects/<slug>/` followed by
      anything, for a non-empty slug without `/`. */
  lemma ProjectSlugCharacterized(pathname: string, x: string)
    ensures ProjectSlug(pathname) == Some(x) <==>
      x != "" && '/' !in x && StartsWith(pathname, PROJECTS_PREFIX + x + "/")
  {
    if ProjectSlug(pathname) == Some(x) {
      FoundSlugShape(pathname);
    }
    if x != "" && '/' !in x && StartsWith(pathname, PROJECTS_PREFIX + x + "/") {
      ShapeYieldsSlug(pathname, x);
    }
  }

  /** Once the path has its four leading pieces, what follows the fourth `/`
      never changes the answer. */
  lemma TailIrrelevant(x: string, rest1: string, rest2: string)
    requires '/' !in x
    ensures ProjectSlug(PROJECTS_PREFIX + x + "/" + rest1) == ProjectSlug(PROJECTS_PREFIX + x + "/" + rest2)
  {
    SplitProjectPath(x, rest1);
    SplitProjectPath(x, rest2);
  }

  /** Four pieces are too few: the bare project path without a trailing part yields null,
      as do paths outside `/console/projects/`. */
  lemma ShortAndForeignPaths(x: string)
    requires '/' !in x
    ensures ProjectSlug(PROJECTS_PREFIX + x) == None
    ensures ProjectSlug("console/projects/" + x + "/") == None
    ensures ProjectSlug("/perf/" + x) == None
  {
    ProjectPiecesJoin(x);
    SplitJoin(ProjectPieces(x), '/');
    var relative := "console/projects/" + x + "/";
    assert relative[0] == 'c';
    SplitCons(relative, '/');
    var perf := "/perf/" + x;
    assert perf[0] == '/' && perf[1..] == "perf/" + x;
    SplitCons(perf, '/');
    assert perf[1..][0] == 'p';
    SplitCons(perf[1..], '/');
    assert Split(perf, '/')[1][0] == 'p';
  }
}
