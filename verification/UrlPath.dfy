/** What url::normalize (src/dcl/url.cpp) computes: the path that its tokens lead to, read from left
    to right. The source reads them from right to left, counting the segments to skip. */
module UrlPath {
  import opened Sequences
  import opened Strutils

  // What one token does to the segments before it: the empty token restarts at the root.
  function Step(stack: seq<string>, t: string): seq<string> {
    if t == "" then []
    else if t == "." then stack
    else if t == ".." then if stack == [] then [] else stack[..|stack| - 1]
    else stack + [t]
  }

  function Resolved(tokens: seq<string>): seq<string> {
    if tokens == [] then []
    else Step(Resolved(tokens[..|tokens| - 1]), tokens[|tokens| - 1])
  }

  function PathText(segments: seq<string>): string {
    if segments == [] then "" else "/" + segments[0] + PathText(segments[1..])
  }

  // The path without its first slash or backslash.
  function Relative(path: string): string {
    if path != "" && (path[0] == '/' || path[0] == '\\') then path[1..] else path
  }

  function Normalized(basePath: string, path: string): string {
    PathText(Resolved(Tokens(basePath + Relative(path), "/")))
  }

  // The segments that remain when the last n are skipped.
  function Skipping(stack: seq<string>, n: nat): seq<string> {
    if n >= |stack| then [] else stack[..|stack| - n]
  }

  lemma {:induction false} PathTextAppend(segments: seq<string>, t: string)
    ensures PathText(segments + [t]) == PathText(segments) + ("/" + t)
  {
    if segments == [] {
      assert segments + [t] == [t];
    } else {
      PathTextAppend(segments[1..], t);
      assert (segments + [t])[1..] == segments[1..] + [t];
      assert "/" + segments[0] + (PathText(segments[1..]) + ("/" + t))
          == ("/" + segments[0] + PathText(segments[1..])) + ("/" + t);
    }
  }

  // The scan from the right has read all tokens from i on: what is written plus what the tokens
  // before i still yield, less the segments to skip, is the result.
  ghost predicate Left(tokens: seq<string>, i: nat, skip: nat, path: string)
    requires i <= |tokens|
  {
    PathText(Resolved(tokens)) == PathText(Skipping(Resolved(tokens[..i]), skip)) + path
  }

  lemma ScanBegins(tokens: seq<string>)
    ensures Left(tokens, |tokens|, 0, "")
  {
    assert tokens[..|tokens|] == tokens;
    assert Skipping(Resolved(tokens), 0) == Resolved(tokens);
  }

  // One step of the scan.
  lemma ScanStep(tokens: seq<string>, i: nat, skip: nat, path: string)
    requires 0 < i <= |tokens| && Left(tokens, i, skip, path)
    ensures
      var t := tokens[i - 1];
      if t == ".." then Left(tokens, i - 1, skip + 1, path)
      else if t == "." then Left(tokens, i - 1, skip, path)
      else if t == "" then PathText(Resolved(tokens)) == path
      else if skip > 0 then Left(tokens, i - 1, skip - 1, path)
      else Left(tokens, i - 1, 0, "/" + t + path)
  {
    hide PathText, Step, Skipping;
    var t := tokens[i - 1];
    var stack := Resolved(tokens[..i - 1]);
    ResolvedStep(tokens, i);
    SkipStep(stack, t, skip);
    PathTextEmpty(path);
    PathTextAppend(stack, t);
    SkipNone(stack);
    Associated(PathText(stack), "/" + t, path);
  }

  lemma ResolvedStep(tokens: seq<string>, i: nat)
    requires 0 < i <= |tokens|
    ensures Resolved(tokens[..i]) == Step(Resolved(tokens[..i - 1]), tokens[i - 1])
  {
    assert tokens[..i][..i - 1] == tokens[..i - 1];
  }

  lemma SkipNone(stack: seq<string>)
    ensures Skipping(stack, 0) == stack
  {}

  lemma PathTextEmpty(path: string)
    ensures PathText([]) + path == path
  {}

  lemma SkipStep(stack: seq<string>, t: string, n: nat)
    ensures t == "" ==> Skipping(Step(stack, t), n) == []
    ensures t == "." ==> Skipping(Step(stack, t), n) == Skipping(stack, n)
    ensures t == ".." ==> Skipping(Step(stack, t), n) == Skipping(stack, n + 1)
    ensures t !in ["", ".", ".."] && n > 0 ==> Skipping(Step(stack, t), n) == Skipping(stack, n - 1)
    ensures t !in ["", ".", ".."] && n == 0 ==> Skipping(Step(stack, t), n) == stack + [t]
  {}

  lemma ScanEnds(tokens: seq<string>, skip: nat, path: string)
    requires Left(tokens, 0, skip, path)
    ensures PathText(Resolved(tokens)) == path
  {
    assert tokens[..0] == [];
    PathTextEmpty(path);
  }

  // A segment of a normalized path.
  predicate Plain(t: string) {
    && t != "" && t != "." && t != ".."
    && NoneIn(t, ['/']) && IsTrimmed(t, Blanks())
  }

  predicate AllPlain(segments: seq<string>) {
    forall i :: 0 <= i < |segments| ==> Plain(segments[i])
  }

  lemma {:induction false} ResolvedIsPlain(tokens: seq<string>)
    requires Separable(tokens, '/')
    ensures AllPlain(Resolved(tokens))
  {
    if tokens != [] {
      ResolvedIsPlain(tokens[..|tokens| - 1]);
    }
  }

  // Every segment of the result is trimmed, not empty, not a dot segment, and free of slashes.
  lemma NormalizedIsPlain(basePath: string, path: string) returns (segments: seq<string>)
    ensures Normalized(basePath, path) == PathText(segments) && AllPlain(segments)
  {
    var t := basePath + Relative(path);
    segments := Resolved(Tokens(t, "/"));
    if t != "" {
      FieldsAreSeparable(t, '/');
      ResolvedIsPlain(Fields(t, "/"));
    }
  }

  lemma {:induction false} ResolvedKeepsPlain(segments: seq<string>)
    requires AllPlain(segments)
    ensures Resolved([""] + segments) == segments
  {
    var tokens := [""] + segments;
    if segments == [] {
      assert tokens[..0] == [];
    } else {
      ResolvedKeepsPlain(segments[..|segments| - 1]);
      assert tokens[..|tokens| - 1] == [""] + segments[..|segments| - 1];
    }
  }

  lemma {:induction false} PathTextJoined(segments: seq<string>)
    requires segments != []
    ensures PathText(segments) == "/" + Joined(segments, '/')
  {
    if |segments| > 1 {
      PathTextJoined(segments[1..]);
    } else {
      assert PathText(segments[1..]) == "";
    }
  }

  // The tokens of a path under the root: an empty one, then its segments.
  lemma RootedTokens(segments: seq<string>)
    requires AllPlain(segments)
    ensures Resolved(Tokens("/" + Relative(PathText(segments)), "/")) == segments
  {
    var parts := [""] + (if segments == [] then [""] else segments);
    assert parts[1..] == if segments == [] then [""] else segments;
    if segments != [] {
      PathTextJoined(segments);
      assert Relative("/" + Joined(segments, '/')) == Joined(segments, '/');
    }
    assert Joined(parts, '/') == "/" + Relative(PathText(segments));
    FieldsOfJoined(parts, '/');
    ResolvedKeepsPlain(segments);
    if segments == [] {
      assert parts[..1] == [""];
      assert Resolved([""]) == [];
    }
  }

  // Normalizing a normalized path against the root changes nothing, whatever it was first
  // normalized against.
  lemma NormalizeIdempotent(basePath: string, path: string)
    ensures Normalized("/", Normalized(basePath, path)) == Normalized(basePath, path)
  {
    var segments := NormalizedIsPlain(basePath, path);
    RootedTokens(segments);
  }

  lemma ResolvedAppend(tokens: seq<string>, t: string)
    ensures Resolved(tokens + [t]) == Step(Resolved(tokens), t)
  {
    assert (tokens + [t])[..|tokens|] == tokens;
  }

  lemma ResolvedOne(x: string)
    requires Plain(x)
    ensures Resolved(["", x]) == [x]
  {
    assert ["", x][..1] == [""] && [""][..0] == [];
  }

  lemma ResolvedTwo(x: string, y: string)
    requires Plain(x)
    ensures Resolved(["", x, y]) == Step([x], y)
  {
    hide Resolved;
    ResolvedOne(x);
    ResolvedAppend(["", x], y);
    assert ["", x] + [y] == ["", x, y];
  }

  lemma ResolvedThree(x: string, t: string, y: string)
    requires Plain(x)
    ensures Resolved(["", x, t, y]) == Step(Step([x], t), y)
  {
    hide Step;
    ResolvedTwo(x, t);
    ResolvedAppend(["", x, t], y);
    assert ["", x, t] + [y] == ["", x, t, y];
  }

  lemma TextOfOne(y: string)
    ensures PathText([y]) == "/" + y
  {
    assert "/" + y + "" == "/" + y;
  }

  lemma TextOfTwo(x: string, y: string)
    ensures PathText([x, y]) == "/" + x + "/" + y
  {
    TextOfOne(y);
    assert [x, y][1..] == [y];
    assert "/" + x + ("/" + y) == "/" + x + "/" + y;
  }

  lemma JoinedCons(a: string, rest: seq<string>)
    requires rest != []
    ensures Joined([a] + rest, '/') == a + "/" + Joined(rest, '/')
  {
    assert ([a] + rest)[1..] == rest;
    Associated(a, "/", Joined(rest, '/'));
  }

  lemma JoinedUnderRoot(x: string, y: string)
    ensures Joined(["", x, y], '/') == "/" + x + "/" + y
  {
    hide Joined;
    JoinedLast(y);
    JoinedCons(x, [y]);
    JoinedCons("", [x, y]);
    assert [x] + [y] == [x, y] && [""] + [x, y] == ["", x, y];
    assert "" + "/" + (x + "/" + y) == "/" + x + "/" + y;
  }

  lemma JoinedLast(y: string)
    ensures Joined([y], '/') == y
  {}

  lemma JoinedThree(x: string, t: string, y: string)
    ensures Joined(["", x, t, y], '/') == "/" + x + "/" + t + "/" + y
  {
    hide Joined;
    JoinedLast(y);
    JoinedCons(t, [y]);
    JoinedCons(x, [t, y]);
    JoinedCons("", [x, t, y]);
    assert [t] + [y] == [t, y] && [x] + [t, y] == [x, t, y] && [""] + [x, t, y] == ["", x, t, y];
    assert "" + "/" + (x + "/" + (t + "/" + y)) == "/" + x + "/" + t + "/" + y;
  }

  // The tokens of a path of two segments under the root, and of a path with a dot segment between them.
  lemma TwoTokens(x: string, y: string)
    requires Plain(x) && Plain(y)
    ensures Tokens("/" + x + "/" + y, "/") == ["", x, y]
  {
    hide Fields, Joined;
    JoinedUnderRoot(x, y);
    FieldsOfJoined(["", x, y], '/');
  }

  lemma ThreeTokens(x: string, t: string, y: string)
    requires Plain(x) && Plain(y) && (t == "" || t == "." || t == "..")
    ensures Tokens("/" + x + "/" + t + "/" + y, "/") == ["", x, t, y]
  {
    hide Fields, Joined;
    JoinedThree(x, t, y);
    FieldsOfJoined(["", x, t, y], '/');
  }

  lemma StepPlain(x: string, y: string)
    requires Plain(y)
    ensures Step([x], y) == [x, y] && Step([], y) == [y]
    ensures y[0] != '\\' ==> Relative(y) == y
  {}

  // A segment is appended to the base path, with or without a slash or backslash before it.
  lemma SegmentAppended(x: string, y: string)
    requires Plain(x) && Plain(y)
    ensures y[0] != '\\' ==> Normalized("/" + x + "/", y) == "/" + x + "/" + y
    ensures Normalized("/" + x + "/", "/" + y) == "/" + x + "/" + y
    ensures Normalized("/" + x + "/", "\\" + y) == "/" + x + "/" + y
  {
    StepPlain(x, y);
    TwoTokens(x, y);
    ResolvedTwo(x, y);
    TextOfTwo(x, y);
    hide Resolved, PathText, Tokens, Plain, Step;
    assert ("/" + y)[1..] == y && ("\\" + y)[1..] == y;
  }

  lemma StepTwice(x: string, t: string, y: string)
    requires Plain(x) && Plain(y) && (t == "" || t == "." || t == "..")
    ensures Step(Step([x], t), y) == if t == "." then [x, y] else [y]
  {
    assert [x][..0] == [];
    StepPlain(x, y);
  }

  // One dot stays, two dots go up, and an empty segment goes back to the root.
  lemma DotSegments(x: string, t: string, y: string)
    requires Plain(x) && Plain(y) && y[0] != '\\' && (t == "" || t == "." || t == "..")
    ensures Normalized("/" + x + "/" + t + "/", y) == if t == "." then "/" + x + "/" + y else "/" + y
  {
    hide Resolved, PathText, Tokens, Plain, Step, Relative;
    StepPlain(x, y);
    ThreeTokens(x, t, y);
    ResolvedThree(x, t, y);
    StepTwice(x, t, y);
    TextOfOne(y);
    TextOfTwo(x, y);
  }
}
