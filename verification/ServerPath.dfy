/** The path under which a mapping's API document is published: the mapping's prefix merged with the
    path of the document's own first server. */
module ServerPath {

  // ----- The standard path package, on segment lists -----

  /** The pieces between slashes; never empty. */
  function Split(s: string): (pieces: seq<string>)
    ensures |pieces| > 0
  {
    if s == "" then [""]
    else
      var rest := Split(s[1..]);
      if s[0] == '/' then [""] + rest else [[s[0]] + rest[0]] + rest[1..]
  }

  /** Without empty pieces and dots. */
  function Significant(pieces: seq<string>): seq<string> {
    if pieces == [] then []
    else (if pieces[0] == "" || pieces[0] == "." then [] else [pieces[0]]) + Significant(pieces[1..])
  }

  /** One more segment: a double dot drops the segment before it, and at the start it is dropped
      itself in a rooted path and kept in another. */
  function Push(rooted: bool, stack: seq<string>, piece: string): seq<string> {
    if piece != ".." then stack + [piece]
    else if stack != [] && stack[|stack| - 1] != ".." then stack[..|stack| - 1]
    else if rooted then stack
    else stack + [".."]
  }

  function Resolve(rooted: bool, pieces: seq<string>): seq<string>
    decreases |pieces|
  {
    if pieces == [] then []
    else Push(rooted, Resolve(rooted, pieces[..|pieces| - 1]), pieces[|pieces| - 1])
  }

  function WithSlashes(pieces: seq<string>): string {
    if pieces == [] then ""
    else if |pieces| == 1 then pieces[0]
    else pieces[0] + "/" + WithSlashes(pieces[1..])
  }

  predicate Rooted(s: string) {
    s != "" && s[0] == '/'
  }

  function Render(rooted: bool, stack: seq<string>): string {
    if rooted then "/" + WithSlashes(stack)
    else if stack == [] then "." else WithSlashes(stack)
  }

  /** path.Clean. */
  function Clean(s: string): string {
    Render(Rooted(s), CleanStack(s))
  }

  function CleanStack(s: string): seq<string> {
    Resolve(Rooted(s), Segments(s))
  }

  function Segments(s: string): seq<string> {
    Significant(Split(s))
  }

  /** The buffer path.Join fills: leading empty elements add nothing, later ones a slash. */
  function Buffer(elements: seq<string>): string
    decreases |elements|
  {
    if elements == [] then ""
    else
      var n := |elements| - 1;
      var buf := Buffer(elements[..n]);
      if buf != "" then buf + "/" + elements[n] else elements[n]
  }

  /** path.Join. */
  function PathJoin(elements: seq<string>): string {
    if Buffer(elements) == "" then "" else Clean(Buffer(elements))
  }

  /** strings.TrimRight(s, "/"). */
  function TrimSlashes(s: string): string
    decreases |s|
  {
    if s != "" && s[|s| - 1] == '/' then TrimSlashes(s[..|s| - 1]) else s
  }

  /** strings.HasSuffix. */
  predicate HasSuffix(s: string, suffix: string) {
    |suffix| <= |s| && s[|s| - |suffix|..] == suffix
  }

  // ----- The merge -----

  /** The path of the published server. `basePath` is the path of the parsed public host, and
      `existing` that of the document's first server. */
  function PublishedPath(basePath: string, prefix: string, existing: string, keepExisting: bool): string {
    if prefix != "" then
      var prefixTrim, existingTrim := TrimSlashes(prefix), TrimSlashes(existing);
      if existing != "" && keepExisting && prefixTrim != existingTrim && !HasSuffix(prefixTrim, existingTrim)
      then PathJoin([basePath, prefix, existing])
      else PathJoin([basePath, prefix])
    else existing
  }

  function Slashes(n: nat): string {
    seq(n, i => '/')
  }

  // ----- Trailing slashes do not matter -----

  lemma {:induction false} SplitAtSlash(a: string, b: string)
    ensures Split(a + "/" + b) == Split(a) + Split(b)
    decreases |a|
  {
    var whole := a + "/" + b;
    if a == "" {
      assert whole[1..] == b;
    } else {
      assert whole[1..] == a[1..] + "/" + b;
      SplitAtSlash(a[1..], b);
    }
  }

  lemma {:induction false} SignificantConcat(p: seq<string>, q: seq<string>)
    ensures Significant(p + q) == Significant(p) + Significant(q)
  {
    if p == [] {
      assert p + q == q;
    } else {
      assert (p + q)[1..] == p[1..] + q;
      SignificantConcat(p[1..], q);
    }
  }

  /** Concatenating two paths around a slash concatenates their segments. */
  lemma SegmentsConcat(a: string, b: string)
    ensures Segments(a + "/" + b) == Segments(a) + Segments(b)
  {
    SplitAtSlash(a, b);
    SignificantConcat(Split(a), Split(b));
  }

  lemma {:induction false} SegmentsOfSlashed(a: string, n: nat)
    ensures Segments(a + Slashes(n)) == Segments(a)
    ensures TrimSlashes(a + Slashes(n)) == TrimSlashes(a)
    decreases n
  {
    if n == 0 {
      assert a + Slashes(0) == a;
    } else {
      var shorter := a + Slashes(n - 1);
      assert a + Slashes(n) == shorter + "/" + "";
      SegmentsOfSlashed(a, n - 1);
      SegmentsConcat(shorter, "");
      assert Significant(Split("")) == [];
      assert (a + Slashes(n))[..|a| + n - 1] == shorter;
    }
  }

  lemma BufferOfTwo(a: string, b: string)
    ensures Buffer([a, b]) == if a == "" then b else a + "/" + b
  {
    assert [a, b][..1] == [a] && [a][..0] == [];
    assert Buffer([a]) == a;
  }

  lemma BufferOfThree(a: string, b: string, c: string)
    requires b != ""
    ensures Buffer([a, b, c]) == Buffer([a, b]) + "/" + c
  {
    BufferOfTwo(a, b);
    assert [a, b, c][..2] == [a, b];
  }

  /** Joining looks at an element only through its segments, except that the first non-empty one
      decides whether the result is rooted. */
  lemma JoinTwo(a: string, b: string)
    requires b != ""
    ensures PathJoin([a, b]) == Joined(if a == "" then Rooted(b) else Rooted(a), Segments(a) + Segments(b))
  {
    BufferOfTwo(a, b);
    if a == "" {
      assert Segments("") == [] && [] + Segments(b) == Segments(b);
    } else {
      SegmentsConcat(a, b);
    }
  }

  lemma JoinThree(a: string, b: string, c: string)
    requires b != ""
    ensures PathJoin([a, b, c])
         == Joined(if a == "" then Rooted(b) else Rooted(a), Segments(a) + Segments(b) + Segments(c))
  {
    BufferOfTwo(a, b);
    BufferOfThree(a, b, c);
    SegmentsConcat(Buffer([a, b]), c);
    if a == "" {
      assert Segments("") == [] && [] + Segments(b) == Segments(b);
    } else {
      SegmentsConcat(a, b);
    }
  }

  function Joined(rooted: bool, segments: seq<string>): string {
    Render(rooted, Resolve(rooted, segments))
  }

  /** For a non-empty prefix, slashes added to the prefix or to the document's own server path leave
      the published path unchanged. */
  lemma TrailingSlashesIgnored(basePath: string, prefix: string, existing: string, keepExisting: bool, n: nat, m: nat)
    requires prefix != ""
    ensures PublishedPath(basePath, prefix + Slashes(n), existing + Slashes(m), keepExisting)
         == PublishedPath(basePath, prefix, existing, keepExisting)
  {
    var prefix', existing' := prefix + Slashes(n), existing + Slashes(m);
    SegmentsOfSlashed(prefix, n);
    SegmentsOfSlashed(existing, m);
    assert Rooted(prefix') == Rooted(prefix);
    assert PathJoin([basePath, prefix']) == PathJoin([basePath, prefix]) by {
      JoinTwo(basePath, prefix);
      JoinTwo(basePath, prefix');
    }
    assert PathJoin([basePath, prefix', existing']) == PathJoin([basePath, prefix, existing]) by {
      JoinThree(basePath, prefix, existing);
      JoinThree(basePath, prefix', existing');
    }
    if existing == "" {
      assert TrimSlashes(existing') == "";
      assert HasSuffix(TrimSlashes(prefix), "");
    }
  }

  /** A trailing slash on the document's server path matters exactly when the prefix is empty. */
  lemma TrailingSlashesMatterExactly(basePath: string, prefix: string, existing: string, keepExisting: bool, m: nat)
    ensures PublishedPath(basePath, prefix, existing + Slashes(m), keepExisting)
              == PublishedPath(basePath, prefix, existing, keepExisting)
       <==> (prefix != "" || m == 0)
  {
    if prefix != "" {
      assert prefix + Slashes(0) == prefix;
      TrailingSlashesIgnored(basePath, prefix, existing, keepExisting, 0, m);
    } else if m == 0 {
      assert existing + Slashes(0) == existing;
    } else {
      assert |existing + Slashes(m)| != |existing|;
    }
  }

  /** Without a prefix the document's own path is published as it is; with one and without keepExisting
      it is never looked at. */
  lemma PublishedOtherwise(basePath: string, prefix: string, existing: string)
    ensures PublishedPath(basePath, "", existing, true) == PublishedPath(basePath, "", existing, false) == existing
    ensures prefix != "" ==> PublishedPath(basePath, prefix, existing, false) == PathJoin([basePath, prefix])
  {}

  // ----- Published paths are clean -----

  /** Segments as path.Clean leaves them: plain names, after double dots only at the start of a path
      that is not rooted. */
  predicate Resolved(rooted: bool, stack: seq<string>) {
    && (forall i :: 0 <= i < |stack| ==> stack[i] != "" && stack[i] != "." && '/' !in stack[i])
    && (rooted ==> forall i :: 0 <= i < |stack| ==> stack[i] != "..")
    && (forall i, j :: 0 <= i < j < |stack| && stack[j] == ".." ==> stack[i] == "..")
  }

  lemma {:induction false} SplitHasNoSlash(s: string)
    ensures forall i :: 0 <= i < |Split(s)| ==> '/' !in Split(s)[i]
  {
    if s != "" {
      SplitHasNoSlash(s[1..]);
    }
  }

  lemma {:induction false} SignificantIsPlain(pieces: seq<string>)
    requires forall i :: 0 <= i < |pieces| ==> '/' !in pieces[i]
    ensures forall i :: 0 <= i < |Significant(pieces)| ==>
              Significant(pieces)[i] != "" && Significant(pieces)[i] != "." && '/' !in Significant(pieces)[i]
  {
    if pieces != [] {
      SignificantIsPlain(pieces[1..]);
    }
  }

  lemma {:induction false} ResolveResolves(rooted: bool, pieces: seq<string>)
    requires forall i :: 0 <= i < |pieces| ==> pieces[i] != "" && pieces[i] != "." && '/' !in pieces[i]
    ensures Resolved(rooted, Resolve(rooted, pieces))
    decreases |pieces|
  {
    if pieces != [] {
      ResolveResolves(rooted, pieces[..|pieces| - 1]);
    }
  }

  /** Resolving again changes nothing. */
  lemma {:induction false} ResolvedIsFixed(rooted: bool, stack: seq<string>)
    requires Resolved(rooted, stack)
    ensures Resolve(rooted, stack) == stack && Significant(stack) == stack
    decreases |stack|
  {
    AllSignificant(stack);
    if stack != [] {
      var n := |stack| - 1;
      ResolvedFront(rooted, stack);
      ResolvedIsFixed(rooted, stack[..n]);
    }
  }

  lemma ResolvedFront(rooted: bool, stack: seq<string>)
    requires Resolved(rooted, stack) && stack != []
    ensures Resolved(rooted, stack[..|stack| - 1])
    ensures Push(rooted, stack[..|stack| - 1], stack[|stack| - 1]) == stack
  {
    assert stack == stack[..|stack| - 1] + [stack[|stack| - 1]];
  }

  lemma {:induction false} AllSignificant(pieces: seq<string>)
    requires forall i :: 0 <= i < |pieces| ==> pieces[i] != "" && pieces[i] != "."
    ensures Significant(pieces) == pieces
  {
    if pieces != [] {
      AllSignificant(pieces[1..]);
    }
  }

  lemma {:induction false} SplitPlain(s: string)
    requires '/' !in s
    ensures Split(s) == [s]
  {
    if s != "" {
      SplitPlain(s[1..]);
      assert [s[0]] + s[1..] == s;
    }
  }

  lemma {:induction false} SplitUndoesSlashes(stack: seq<string>)
    requires stack != [] && forall i :: 0 <= i < |stack| ==> '/' !in stack[i]
    ensures Split(WithSlashes(stack)) == stack
  {
    SplitPlain(stack[0]);
    if |stack| > 1 {
      SplitUndoesSlashes(stack[1..]);
      SplitAtSlash(stack[0], WithSlashes(stack[1..]));
    }
  }

  /** Rendering and reading back gives the same root and the same segments. */
  lemma RenderRoundTrip(rooted: bool, stack: seq<string>)
    requires Resolved(rooted, stack)
    ensures Rooted(Render(rooted, stack)) == rooted
    ensures Segments(Render(rooted, stack)) == stack
  {
    if stack == [] {
      EmptyRoundTrip();
    } else {
      AllSignificant(stack);
      SplitUndoesSlashes(stack);
      FirstOfSlashed(stack);
      RootSlash(WithSlashes(stack));
    }
  }

  lemma EmptyRoundTrip()
    ensures Segments("/") == [] && Segments(".") == [] && "/" + "" == "/"
  {
    SplitPlain(".");
    RootSlash("");
    assert Split("") == [""];
    assert Significant([""]) == [] && Significant(["."]) == [] && "/" + "" == "/";
  }

  lemma RootSlash(s: string)
    ensures Rooted("/" + s) && Segments("/" + s) == Segments(s)
  {
    assert ("/" + s)[1..] == s;
    assert Split("/" + s) == [""] + Split(s);
    assert ([""] + Split(s))[1..] == Split(s);
  }

  lemma FirstOfSlashed(stack: seq<string>)
    requires stack != [] && stack[0] != ""
    ensures WithSlashes(stack) != "" && WithSlashes(stack)[0] == stack[0][0]
  {}

  /** Cleaning twice is cleaning once. */
  lemma CleanIdempotent(s: string)
    ensures Clean(Clean(s)) == Clean(s)
  {
    var stack := CleanStack(s);
    SplitHasNoSlash(s);
    SignificantIsPlain(Split(s));
    ResolveResolves(Rooted(s), Significant(Split(s)));
    RenderRoundTrip(Rooted(s), stack);
    ResolvedIsFixed(Rooted(s), stack);
  }

  /** Cleaning keeps the root, and leaves plain names, after double dots only at the start of a path that
      is not rooted. */
  lemma CleanIsResolved(s: string)
    ensures Rooted(Clean(s)) == Rooted(s)
    ensures Resolved(Rooted(s), Segments(Clean(s)))
  {
    SplitHasNoSlash(s);
    SignificantIsPlain(Split(s));
    ResolveResolves(Rooted(s), Segments(s));
    RenderRoundTrip(Rooted(s), CleanStack(s));
  }

  /** A path that needs no cleaning keeps its segments. */
  lemma CleanKeepsResolved(s: string)
    requires Resolved(Rooted(s), Segments(s))
    ensures Segments(Clean(s)) == Segments(s)
  {
    ResolvedIsFixed(Rooted(s), Segments(s));
    RenderRoundTrip(Rooted(s), Segments(s));
  }

  /** A double dot takes back the segment before it. */
  lemma DoubleDotTakesBack(a: string, name: string)
    requires a != "" && Segments(name) == [name] && name != ".."
    ensures Clean(a + "/" + name + "/" + "..") == Clean(a)
  {
    DoubleDotSegment();
    SegmentsConcat(a + "/" + name, "..");
    SegmentsConcat(a, name);
    TakesBack(Rooted(a), Segments(a), name);
  }

  lemma NothingAboveTheRoot()
    ensures Clean("/" + "..") == Clean("/")
  {
    DoubleDotSegment();
    RootSlash("..");
    EmptyRoundTrip();
    assert [".."][..0] == [];
  }

  lemma DoubleDotSegment()
    ensures Segments("..") == [".."]
  {
    SplitPlain("..");
    AllSignificant([".."]);
  }

  lemma TakesBack(rooted: bool, base: seq<string>, name: string)
    requires name != ".."
    ensures Resolve(rooted, base + [name] + [".."]) == Resolve(rooted, base)
  {
    assert (base + [name] + [".."])[..|base| + 1] == base + [name];
    assert (base + [name])[..|base|] == base;
  }

  /** With a prefix, what is published is a clean, non-empty path. */
  lemma PublishedIsClean(basePath: string, prefix: string, existing: string, keepExisting: bool)
    requires prefix != ""
    ensures var p := PublishedPath(basePath, prefix, existing, keepExisting);
            p != "" && Clean(p) == p
  {
    BufferOfTwo(basePath, prefix);
    BufferOfThree(basePath, prefix, existing);
    var two, three := Buffer([basePath, prefix]), Buffer([basePath, prefix, existing]);
    assert two != "" && three != "";
    CleanIdempotent(two);
    CleanIdempotent(three);
    CleanNotEmpty(two);
    CleanNotEmpty(three);
  }

  lemma CleanNotEmpty(s: string)
    ensures Clean(s) != ""
  {
    SplitHasNoSlash(s);
    SignificantIsPlain(Split(s));
    ResolveResolves(Rooted(s), Significant(Split(s)));
    var stack := CleanStack(s);
    if stack != [] {
      FirstOfSlashed(stack);
    }
  }

  // ----- Is the document's own path kept? -----

  /** No dots and no double dots among the pieces. */
  predicate Plain(s: string) {
    forall i :: 0 <= i < |Split(s)| ==> Split(s)[i] != "." && Split(s)[i] != ".."
  }

  predicate EndsWith(whole: seq<string>, end: seq<string>) {
    |end| <= |whole| && whole[|whole| - |end|..] == end
  }

  /** The existing path begins where a segment of the prefix begins: it is empty, begins with a slash,
      is the whole prefix, or follows a slash in it. */
  predicate Aligned(prefixTrim: string, existingTrim: string)
    requires HasSuffix(prefixTrim, existingTrim)
  {
    || existingTrim == "" || existingTrim[0] == '/' || |prefixTrim| == |existingTrim|
    || prefixTrim[|prefixTrim| - |existingTrim| - 1] == '/'
  }

  lemma {:induction false} SignificantMembers(pieces: seq<string>)
    ensures forall x :: x in Significant(pieces) <==> x in pieces && x != "" && x != "."
  {
    if pieces != [] {
      SignificantMembers(pieces[1..]);
    }
  }

  lemma PlainResolved(s: string, rooted: bool)
    requires Plain(s)
    ensures Resolved(rooted, Segments(s)) && forall i :: 0 <= i < |Segments(s)| ==> Segments(s)[i] != ".."
  {
    SplitHasNoSlash(s);
    SignificantIsPlain(Split(s));
    SignificantMembers(Split(s));
    forall i | 0 <= i < |Segments(s)|
      ensures Segments(s)[i] != ".."
    {
      assert Segments(s)[i] in Split(s);
    }
  }

  /** No double dots: a stack path.Clean leaves alone. */
  predicate Names(stack: seq<string>) {
    forall i :: 0 <= i < |stack| ==> stack[i] != "" && stack[i] != "." && stack[i] != ".." && '/' !in stack[i]
  }

  lemma PlainNames(s: string)
    requires Plain(s)
    ensures Names(Segments(s))
  {
    PlainResolved(s, false);
  }

  lemma JoinedNames(rooted: bool, segments: seq<string>)
    requires Names(segments)
    ensures Segments(Joined(rooted, segments)) == segments
  {
    ResolvedIsFixed(rooted, segments);
    RenderRoundTrip(rooted, segments);
  }

  /** The segments published, when nothing needs resolving. */
  lemma PublishedSegments(basePath: string, prefix: string, existing: string)
    requires prefix != "" && Plain(basePath) && Plain(prefix) && Plain(existing)
    ensures Segments(PathJoin([basePath, prefix])) == Segments(basePath) + Segments(prefix)
    ensures Segments(PathJoin([basePath, prefix, existing]))
         == Segments(basePath) + Segments(prefix) + Segments(existing)
  {
    var rooted := if basePath == "" then Rooted(prefix) else Rooted(basePath);
    PlainNames(basePath);
    PlainNames(prefix);
    PlainNames(existing);
    var two := Segments(basePath) + Segments(prefix);
    NamesConcat(Segments(basePath), Segments(prefix));
    NamesConcat(two, Segments(existing));
    JoinTwo(basePath, prefix);
    JoinThree(basePath, prefix, existing);
    JoinedNames(rooted, two);
    JoinedNames(rooted, two + Segments(existing));
  }

  lemma NamesConcat(a: seq<string>, b: seq<string>)
    requires Names(a) && Names(b)
    ensures Names(a + b)
  {}

  /** The last piece of one list glued to the first of the other. */
  function Glue(a: seq<string>, b: seq<string>): seq<string>
    requires a != [] && b != []
  {
    a[..|a| - 1] + [a[|a| - 1] + b[0]] + b[1..]
  }

  lemma GlueFirst(c: char, a: seq<string>, b: seq<string>)
    requires a != [] && b != []
    ensures Glue([""] + a, b) == [""] + Glue(a, b)
    ensures Glue([[c] + a[0]] + a[1..], b) == [[c] + Glue(a, b)[0]] + Glue(a, b)[1..]
  {
    var longer := [[c] + a[0]] + a[1..];
    if |a| == 1 {
      assert ([c] + a[0]) + b[0] == [c] + (a[0] + b[0]);
      assert longer == [[c] + a[0]];
    } else {
      assert longer[..|a| - 1] == [[c] + a[0]] + a[1..|a| - 1];
      assert Glue(a, b)[0] == a[0];
    }
    assert ([""] + a)[..|a|] == [""] + a[..|a| - 1];
  }

  /** Concatenating without a slash glues the last piece to the first. */
  lemma {:induction false} SplitGlued(x: string, e: string)
    ensures Split(x + e) == Glue(Split(x), Split(e))
    decreases |x|
  {
    if x == "" {
      var first := Split(e)[0];
      assert x + e == e && "" + first == first;
      assert [first] + Split(e)[1..] == Split(e);
    } else {
      assert (x + e)[1..] == x[1..] + e;
      SplitGlued(x[1..], e);
      GlueFirst(x[0], Split(x[1..]), Split(e));
    }
  }

  lemma {:induction false} LastPieceNotEmpty(x: string)
    requires x != "" && x[|x| - 1] != '/'
    ensures Split(x)[|Split(x)| - 1] != ""
    decreases |x|
  {
    var rest := Split(x[1..]);
    if |x| > 1 {
      LastPieceNotEmpty(x[1..]);
      assert Split(x) == if x[0] == '/' then [""] + rest else [[x[0]] + rest[0]] + rest[1..];
      assert |rest| > 1 ==> Split(x)[|Split(x)| - 1] == rest[|rest| - 1];
    }
  }

  lemma TrimIsPrefix(s: string)
    ensures exists n: nat :: s == TrimSlashes(s) + Slashes(n)
    decreases |s|
  {
    if s != "" && s[|s| - 1] == '/' {
      TrimIsPrefix(s[..|s| - 1]);
      var n: nat :| s[..|s| - 1] == TrimSlashes(s[..|s| - 1]) + Slashes(n);
      assert Slashes(n + 1) == Slashes(n) + "/" && s == s[..|s| - 1] + "/";
      assert s == TrimSlashes(s) + Slashes(n + 1);
    } else {
      assert s == TrimSlashes(s) + Slashes(0);
    }
  }

  lemma TrimKeepsSegments(s: string)
    ensures Segments(TrimSlashes(s)) == Segments(s)
  {
    TrimIsPrefix(s);
    var n: nat :| s == TrimSlashes(s) + Slashes(n);
    SegmentsOfSlashed(TrimSlashes(s), n);
  }

  /** An aligned suffix of a path is a suffix of its segments. */
  lemma AlignedSuffix(p: string, e: string)
    requires HasSuffix(p, e) && Aligned(p, e)
    ensures EndsWith(Segments(p), Segments(e))
  {
    var x := p[..|p| - |e|];
    assert p == x + e;
    if e == "" {
      assert Segments(e) == [];
    } else if e[0] == '/' {
      assert p == x + "/" + e[1..] && e == "" + "/" + e[1..];
      SegmentsConcat(x, e[1..]);
      SegmentsConcat("", e[1..]);
      assert Segments("") == [];
    } else if x == "" {
      assert p == e;
    } else {
      var y := x[..|x| - 1];
      assert p == y + "/" + e;
      SegmentsConcat(y, e);
    }
  }

  /** A suffix that begins inside a segment is not. */
  lemma MisalignedSuffix(p: string, e: string, base: seq<string>)
    requires HasSuffix(p, e) && !Aligned(p, e) && Plain(e)
    ensures !EndsWith(base + Segments(p), Segments(e))
  {
    var x := p[..|p| - |e|];
    assert p == x + e;
    LastPieceNotEmpty(x);
    var last, head := Split(x)[|Split(x)| - 1], Split(e)[0];
    assert head != "" && head != ".";
    assert |last + head| > |head|;
    var front, rest := Significant(Split(x)[..|Split(x)| - 1]), Significant(Split(e)[1..]);
    GluedSegments(x, e);
    DifferentTail(base, front, last + head, head, rest);
  }

  lemma GluedSegments(x: string, e: string)
    requires var head := Split(e)[0];
             head != "" && head != "." && Split(x)[|Split(x)| - 1] + head != "."
    ensures var n, head, rest := |Split(x)| - 1, Split(e)[0], Significant(Split(e)[1..]);
            && Segments(x + e) == Significant(Split(x)[..n]) + [Split(x)[n] + head] + rest
            && Segments(e) == [head] + rest
  {
    SplitGlued(x, e);
    var n, head, rest := |Split(x)| - 1, Split(e)[0], Split(e)[1..];
    var glued := Split(x)[n] + head;
    AllSignificant([glued]);
    SignificantConcat(Split(x)[..n] + [glued], rest);
    SignificantConcat(Split(x)[..n], [glued]);
  }

  lemma DifferentTail(base: seq<string>, front: seq<string>, a: string, b: string, rest: seq<string>)
    requires a != b
    ensures !EndsWith(base + (front + [a] + rest), [b] + rest)
  {
    var whole := base + (front + [a] + rest);
    assert whole[|base| + |front|] == a;
    assert whole[|whole| - |[b] + rest|..][0] == a;
  }

  /** With a prefix and keepExisting, on paths without dots, what is published ends with the segments
      of the document's own path exactly when that path is not left out, or is left out as an aligned
      suffix of the prefix. */
  lemma ExistingPathKeptExactly(basePath: string, prefix: string, existing: string)
    requires prefix != "" && Plain(basePath) && Plain(prefix) && Plain(existing)
    ensures var p, e := TrimSlashes(prefix), TrimSlashes(existing);
            EndsWith(Segments(PublishedPath(basePath, prefix, existing, true)), Segments(existing)) <==>
            (HasSuffix(p, e) ==> Aligned(p, e))
  {
    var p, e := TrimSlashes(prefix), TrimSlashes(existing);
    PublishedSegments(basePath, prefix, existing);
    TrimKeepsSegments(prefix);
    TrimKeepsSegments(existing);
    PublishedIsJoin(basePath, prefix, existing);
    if !HasSuffix(p, e) {
      EndsWithLast(Segments(basePath) + Segments(prefix), Segments(existing));
    } else if Aligned(p, e) {
      AlignedSuffix(p, e);
      EndsWithLonger(Segments(basePath), Segments(prefix), Segments(existing));
    } else {
      TrimmedIsPlain(existing);
      MisalignedSuffix(p, e, Segments(basePath));
    }
  }

  /** What the test on the trimmed strings decides. */
  lemma PublishedIsJoin(basePath: string, prefix: string, existing: string)
    requires prefix != ""
    ensures PublishedPath(basePath, prefix, existing, true) ==
              if HasSuffix(TrimSlashes(prefix), TrimSlashes(existing)) then PathJoin([basePath, prefix])
              else PathJoin([basePath, prefix, existing])
  {
    var p, e := TrimSlashes(prefix), TrimSlashes(existing);
    assert HasSuffix(p, "");
    assert p[|p| - |p|..] == p;
  }

  lemma EndsWithLast(a: seq<string>, b: seq<string>)
    ensures EndsWith(a + b, b)
  {}

  lemma EndsWithLonger(a: seq<string>, b: seq<string>, end: seq<string>)
    requires EndsWith(b, end)
    ensures EndsWith(a + b, end)
  {
    assert (a + b)[|a + b| - |end|..] == b[|b| - |end|..];
  }

  lemma {:induction false} TrimmedIsPlain(s: string)
    requires Plain(s)
    ensures Plain(TrimSlashes(s))
    decreases |s|
  {
    if s != "" && s[|s| - 1] == '/' {
      var front := s[..|s| - 1];
      assert s == front + "/" + "";
      SplitAtSlash(front, "");
      forall i | 0 <= i < |Split(front)|
        ensures Split(front)[i] != "." && Split(front)[i] != ".."
      {
        assert Split(s)[i] == Split(front)[i];
      }
      TrimmedIsPlain(front);
    }
  }

  // ----- The same question for all paths -----

  /** Resolving more segments from where `stack` leads. */
  function Onto(rooted: bool, stack: seq<string>, pieces: seq<string>): seq<string>
    decreases |pieces|
  {
    if pieces == [] then stack
    else Push(rooted, Onto(rooted, stack, pieces[..|pieces| - 1]), pieces[|pieces| - 1])
  }

  lemma {:induction false} ResolveConcat(rooted: bool, a: seq<string>, b: seq<string>)
    ensures Resolve(rooted, a + b) == Onto(rooted, Resolve(rooted, a), b)
    decreases |b|
  {
    if b == [] {
      assert a + b == a;
    } else {
      assert (a + b)[..|a + b| - 1] == a + b[..|b| - 1];
      ResolveConcat(rooted, a, b[..|b| - 1]);
    }
  }

  /** How many levels the segments go up, and the names they then go down. */
  function Route(pieces: seq<string>): (nat, seq<string>)
    decreases |pieces|
  {
    if pieces == [] then (0, []) else OneMore(Route(pieces[..|pieces| - 1]), pieces[|pieces| - 1])
  }

  function OneMore(route: (nat, seq<string>), piece: string): (nat, seq<string>) {
    if piece != ".." then (route.0, route.1 + [piece])
    else if route.1 != [] then (route.0, route.1[..|route.1| - 1])
    else (route.0 + 1, [])
  }

  /** So many levels up from where `stack` leads. */
  function Climbed(rooted: bool, stack: seq<string>, up: nat): seq<string> {
    if up == 0 then stack else Push(rooted, Climbed(rooted, stack, up - 1), "..")
  }

  /** Going up and down again ends where it began. */
  predicate Returns(rooted: bool, stack: seq<string>, pieces: seq<string>) {
    Climbed(rooted, stack, Route(pieces).0) + Route(pieces).1 == stack
  }

  lemma {:induction false} OntoRoute(rooted: bool, stack: seq<string>, pieces: seq<string>)
    ensures Onto(rooted, stack, pieces) == Climbed(rooted, stack, Route(pieces).0) + Route(pieces).1
    decreases |pieces|
  {
    if pieces != [] {
      var n := |pieces| - 1;
      OntoRoute(rooted, stack, pieces[..n]);
      RouteEndsInNames(pieces[..n]);
      OneOnto(rooted, stack, Route(pieces[..n]), pieces[n]);
    }
  }

  lemma {:induction false} RouteEndsInNames(pieces: seq<string>)
    ensures ".." !in Route(pieces).1
    decreases |pieces|
  {
    if pieces != [] {
      RouteEndsInNames(pieces[..|pieces| - 1]);
    }
  }

  lemma OneOnto(rooted: bool, stack: seq<string>, route: (nat, seq<string>), piece: string)
    requires ".." !in route.1
    ensures var more := OneMore(route, piece);
            Push(rooted, Climbed(rooted, stack, route.0) + route.1, piece) == Climbed(rooted, stack, more.0) + more.1
  {
    var top, down := Climbed(rooted, stack, route.0), route.1;
    if down == [] {
      assert top + down == top;
    } else {
      assert (top + down)[|top + down| - 1] == down[|down| - 1];
      assert (top + down)[..|top + down| - 1] == top + down[..|down| - 1];
    }
  }

  predicate RootedJoin(basePath: string, prefix: string) {
    if basePath == "" then Rooted(prefix) else Rooted(basePath)
  }

  /** Where the prefix leads. */
  function PrefixStack(basePath: string, prefix: string): seq<string> {
    Resolve(RootedJoin(basePath, prefix), Segments(basePath) + Segments(prefix))
  }

  lemma SegmentsResolve(rooted: bool, s: seq<string>)
    requires forall i :: 0 <= i < |s| ==> s[i] != "" && s[i] != "." && '/' !in s[i]
    ensures Segments(Joined(rooted, s)) == Resolve(rooted, s)
  {
    ResolveResolves(rooted, s);
    RenderRoundTrip(rooted, Resolve(rooted, s));
  }

  lemma SegmentsAreSignificant(s: string)
    ensures forall i :: 0 <= i < |Segments(s)| ==>
              Segments(s)[i] != "" && Segments(s)[i] != "." && '/' !in Segments(s)[i]
  {
    SplitHasNoSlash(s);
    SignificantIsPlain(Split(s));
  }

  /** Joining one more path changes nothing exactly when that path returns to where the others lead. */
  lemma JoinReturns(basePath: string, prefix: string, existing: string)
    requires prefix != ""
    ensures PathJoin([basePath, prefix, existing]) == PathJoin([basePath, prefix]) <==>
            Returns(RootedJoin(basePath, prefix), PrefixStack(basePath, prefix), Segments(existing))
  {
    var rooted := RootedJoin(basePath, prefix);
    var two := Segments(basePath) + Segments(prefix);
    JoinTwo(basePath, prefix);
    JoinThree(basePath, prefix, existing);
    SegmentsAreSignificant(basePath);
    SegmentsAreSignificant(prefix);
    SegmentsAreSignificant(existing);
    SegmentsResolve(rooted, two);
    SegmentsResolve(rooted, two + Segments(existing));
    ResolveConcat(rooted, two, Segments(existing));
    OntoRoute(rooted, Resolve(rooted, two), Segments(existing));
  }

  /** With a prefix and keepExisting, for all paths: what is published is the full join, with the
      document's own path last, exactly when that path is no string suffix of the prefix, or leads back
      to where the prefix leads. */
  lemma FullPathExactly(basePath: string, prefix: string, existing: string)
    requires prefix != ""
    ensures PublishedPath(basePath, prefix, existing, true) == PathJoin([basePath, prefix, existing]) <==>
            (HasSuffix(TrimSlashes(prefix), TrimSlashes(existing)) ==>
               Returns(RootedJoin(basePath, prefix), PrefixStack(basePath, prefix), Segments(existing)))
  {
    JoinReturns(basePath, prefix, existing);
    PublishedIsJoin(basePath, prefix, existing);
  }

  predicate Downward(piece: string) {
    piece != ".."
  }

  lemma {:induction false} RouteWithoutDots(pieces: seq<string>)
    requires forall i :: 0 <= i < |pieces| ==> Downward(pieces[i])
    ensures Route(pieces).0 == 0 && Route(pieces).1 == pieces
    decreases |pieces|
  {
    if pieces != [] {
      var front, last := pieces[..|pieces| - 1], pieces[|pieces| - 1];
      RouteWithoutDots(front);
      RouteDown(front, last);
      assert front + [last] == pieces;
    }
  }

  lemma RouteDown(front: seq<string>, last: string)
    requires Downward(last)
    ensures Route(front + [last]).0 == Route(front).0
    ensures Route(front + [last]).1 == Route(front).1 + [last]
  {
    assert (front + [last])[..|front|] == front;
  }

  /** In particular, a path of the document's own that names something and has no double dots is lost
      exactly when it is a string suffix of the prefix. */
  lemma NamedPathLostExactly(basePath: string, prefix: string, existing: string)
    requires prefix != "" && ".." !in Segments(existing) && Segments(existing) != []
    ensures PublishedPath(basePath, prefix, existing, true) != PathJoin([basePath, prefix, existing]) <==>
            HasSuffix(TrimSlashes(prefix), TrimSlashes(existing))
  {
    FullPathExactly(basePath, prefix, existing);
    assert forall i :: 0 <= i < |Segments(existing)| ==> Segments(existing)[i] in Segments(existing);
    RouteWithoutDots(Segments(existing));
  }

  /** A relative server path that happens to end the last segment of the prefix is lost. */
  lemma RelativePathLost()
    ensures PublishedPath("", "/myv1", "v1", true) == PublishedPath("", "/myv1", "", true)
  {
    assert TrimSlashes("/myv1") == "/myv1" && TrimSlashes("v1") == "v1";
    assert "/myv1"[3..] == "v1";
  }
}
