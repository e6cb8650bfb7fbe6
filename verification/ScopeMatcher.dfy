/** Scope matching (packages/orchestrator/src/host-api/scope-matcher.ts): string tests, and what they decide about path segments. */
module ScopeMatcher {
  import opened Options
  import opened Strings

  function NonEmpty(parts: seq<string>): (r: seq<string>)
    ensures forall i :: 0 <= i < |r| ==> r[i] != "" && r[i] in parts
  {
    if parts == [] then []
    else (if parts[0] != "" then [parts[0]] else []) + NonEmpty(parts[1..])
  }

  /** The segments of a path: its non-empty parts between slashes. */
  function Segments(path: string): seq<string> { NonEmpty(Split(path, '/')) }

  function CanonicalizePath(path: string): Option<string> {
    if !("/" <= path) then None
    else
      var segments := Segments(path);
      if ".." in segments || "." in segments then None else Some("/" + Join(segments, '/'))
  }

  function GlobBase(pattern: string): string
    requires EndsWith(pattern, "/*")
  {
    var base := pattern[..|pattern| - 2];
    if base == "" then "/" else base
  }

  predicate MatchPathGlob(pattern: string, path: string) {
    var canonicalPath := CanonicalizePath(path);
    var canonicalPattern := CanonicalizePath(if EndsWith(pattern, "/*") then GlobBase(pattern) else pattern);
    if canonicalPath.None? || canonicalPattern.None? then false
    else if EndsWith(pattern, "/*") then
      canonicalPattern.value == "/" || canonicalPath.value == canonicalPattern.value || canonicalPattern.value + "/" <= canonicalPath.value
    else canonicalPath.value == canonicalPattern.value
  }

  predicate MatchAnyPathGlob(patterns: seq<string>, path: string) {
    exists i :: 0 <= i < |patterns| && MatchPathGlob(patterns[i], path)
  }

  predicate MatchNamePrefix(patterns: seq<string>, name: string) {
    exists i :: 0 <= i < |patterns| && MatchesName(patterns[i], name)
  }

  predicate MatchPortRange(ports: seq<int>, requested: seq<int>) {
    forall i :: 0 <= i < |requested| ==> requested[i] in ports
  }

  /** What a list of name patterns covers: everything, one name, or every name below a base. */
  ghost predicate NameCovered(patterns: seq<string>, name: string) {
    exists p :: p in patterns && (p == "*" || p == name || exists base :: p == base + "/*" && base + "/" <= name)
  }

  predicate MatchesName(p: string, name: string) {
    if EndsWith(p, "/*") then p[..|p| - 1] <= name else p == "*" || p == name
  }

  lemma EndsInStar(base: string)
    ensures EndsWith(base + "/*", "/*")
  {
  }

  lemma OneNamePattern(p: string, name: string)
    ensures MatchesName(p, name) <==> p == "*" || p == name || exists base :: p == base + "/*" && base + "/" <= name
  {
    if EndsWith(p, "/*") {
      var base := p[..|p| - 2];
      assert p == base + "/*" && p[..|p| - 1] == base + "/";
      if other :| p == other + "/*" && other + "/" <= name {
        assert other == base;
      }
    } else if base :| p == base + "/*" {
      EndsInStar(base);
    }
  }

  /** The string tests decide exactly that. */
  lemma NamePrefixExactly(patterns: seq<string>, name: string)
    ensures MatchNamePrefix(patterns, name) <==> NameCovered(patterns, name)
  {
    hide MatchesName;
    forall p
      ensures MatchesName(p, name) <==> p == "*" || p == name || exists base :: p == base + "/*" && base + "/" <= name
    {
      OneNamePattern(p, name);
    }
    if NameCovered(patterns, name) {
      var p :| p in patterns && (p == "*" || p == name || exists base :: p == base + "/*" && base + "/" <= name);
      var i :| 0 <= i < |patterns| && patterns[i] == p;
      assert MatchesName(patterns[i], name);
    }
    if MatchNamePrefix(patterns, name) {
      var i :| 0 <= i < |patterns| && MatchesName(patterns[i], name);
      assert patterns[i] in patterns;
    }
  }

  /** A port list covers a request that it contains. */
  lemma PortRangeExactly(ports: seq<int>, requested: seq<int>)
    ensures MatchPortRange(ports, requested) <==> forall p :: p in requested ==> p in ports
  {
    if forall p :: p in requested ==> p in ports {
      forall i | 0 <= i < |requested|
        ensures requested[i] in ports
      {
        assert requested[i] in requested;
      }
    }
  }

  /** Absolute, and without a segment that walks up or stays. */
  predicate IsSafe(path: string) { "/" <= path && ".." !in Segments(path) && "." !in Segments(path) }

  /** What a glob means, told in segments: a trailing `*` segment stands for any number of segments. */
  ghost predicate GlobCovers(pattern: string, path: string) {
    && IsSafe(path) && IsSafe(pattern)
    && if EndsWith(pattern, "/*") then exists base :: Segments(pattern) == base + ["*"] && base <= Segments(path)
       else Segments(pattern) == Segments(path)
  }

  lemma {:induction false} NonEmptyConcat(a: seq<string>, b: seq<string>)
    ensures NonEmpty(a + b) == NonEmpty(a) + NonEmpty(b)
  {
    if a == [] {
      assert a + b == b;
    } else {
      assert (a + b)[1..] == a[1..] + b;
      NonEmptyConcat(a[1..], b);
    }
  }

  lemma SplitStep(s: string, c: char)
    requires s != ""
    ensures var rest := Split(s[1..], c);
            Split(s, c) == if s[0] == c then [""] + rest else [[s[0]] + rest[0]] + rest[1..]
  {
  }

  /** Splitting at a separator that is known to be there. */
  lemma {:induction false} SplitAt(a: string, b: string, c: char)
    ensures Split(a + [c] + b, c) == Split(a, c) + Split(b, c)
  {
    hide Split;
    var s := a + [c] + b;
    SplitStep(s, c);
    if a == "" {
      assert s[1..] == b;
      SplitWhole("", c);
    } else {
      SplitAt(a[1..], b, c);
      SplitStep(a, c);
      assert s[1..] == a[1..] + [c] + b;
      var l, r := Split(a[1..], c), Split(b, c);
      assert (l + r)[1..] == l[1..] + r;
    }
  }

  /** The segments of a glob pattern are those of its base and one star. */
  lemma GlobSegments(pattern: string)
    requires EndsWith(pattern, "/*")
    ensures Segments(pattern) == Segments(GlobBase(pattern)) + ["*"]
    ensures "/" <= pattern <==> "/" <= GlobBase(pattern)
  {
    var base := pattern[..|pattern| - 2];
    assert pattern == base + ['/'] + "*";
    SplitAt(base, "*", '/');
    SplitWhole("*", '/');
    NonEmptyConcat(Split(base, '/'), ["*"]);
    if base == "" {
      assert Segments("/") == [] by { assert Split("/", '/') == ["", ""]; }
    }
  }

  lemma {:induction false} NonEmptyIdentity(parts: seq<string>)
    requires forall i :: 0 <= i < |parts| ==> parts[i] != ""
    ensures NonEmpty(parts) == parts
  {
    if parts != [] {
      NonEmptyIdentity(parts[1..]);
    }
  }

  lemma {:induction false} SegmentsHaveNoSlash(parts: seq<string>, c: char)
    requires forall i :: 0 <= i < |parts| ==> c !in parts[i]
    ensures forall i :: 0 <= i < |NonEmpty(parts)| ==> c !in NonEmpty(parts)[i]
  {
  }

  /** Canonical paths are equal exactly when their segments are. */
  lemma JoinInjective(a: seq<string>, b: seq<string>)
    requires forall i :: 0 <= i < |a| ==> a[i] != "" && '/' !in a[i]
    requires forall i :: 0 <= i < |b| ==> b[i] != "" && '/' !in b[i]
    ensures Join(a, '/') == Join(b, '/') <==> a == b
  {
    if a != [] { SplitJoin(a, '/'); }
    if b != [] { SplitJoin(b, '/'); }
    if a == [] && b != [] {
      assert Join(b, '/') != "";
    }
    if b == [] && a != [] {
      assert Join(a, '/') != "";
    }
  }

  lemma JoinPrefix(a: seq<string>, b: seq<string>)
    requires a != []
    requires forall i :: 0 <= i < |a| ==> a[i] != "" && '/' !in a[i]
    requires forall i :: 0 <= i < |b| ==> b[i] != "" && '/' !in b[i]
    ensures Join(a, '/') + "/" <= Join(b, '/') <==> a <= b && a != b
  {
    if Join(a, '/') + "/" <= Join(b, '/') {
      var rest := Join(b, '/')[|Join(a, '/')| + 1..];
      assert Join(b, '/') == Join(a, '/') + ['/'] + rest;
      SplitAt(Join(a, '/'), rest, '/');
      SplitJoin(a, '/');
      if b == [] {
        assert false;
      }
      SplitJoin(b, '/');
      assert b == a + Split(rest, '/');
    }
    if a <= b && a != b {
      assert b == a + b[|a|..];
      JoinConcat(a, b[|a|..]);
    }
  }

  lemma {:induction false} JoinConcat(a: seq<string>, b: seq<string>)
    requires a != [] && b != []
    ensures Join(a + b, '/') == Join(a, '/') + ['/'] + Join(b, '/')
  {
    if |a| == 1 {
      assert (a + b)[1..] == b;
    } else {
      assert (a + b)[1..] == a[1..] + b;
      JoinConcat(a[1..], b);
    }
  }

  lemma CanonicalForm(path: string)
    ensures CanonicalizePath(path).Some? <==> IsSafe(path)
    ensures IsSafe(path) ==> CanonicalizePath(path).value == "/" + Join(Segments(path), '/')
    ensures forall i :: 0 <= i < |Segments(path)| ==> Segments(path)[i] != "" && '/' !in Segments(path)[i]
  {
    SegmentsHaveNoSlash(Split(path, '/'), '/');
  }

  /** Canonical paths compared as strings: equal, root, or a proper ancestor. */
  lemma CanonicalComparison(a: seq<string>, b: seq<string>)
    requires forall i :: 0 <= i < |a| ==> a[i] != "" && '/' !in a[i]
    requires forall i :: 0 <= i < |b| ==> b[i] != "" && '/' !in b[i]
    ensures "/" + Join(a, '/') == "/" + Join(b, '/') <==> a == b
    ensures ("/" + Join(a, '/') == "/" || "/" + Join(a, '/') == "/" + Join(b, '/') || "/" + Join(a, '/') + "/" <= "/" + Join(b, '/'))
            <==> a <= b
  {
    hide Join;
    JoinInjective(a, b);
    JoinInjective(a, []);
    JoinEmpty();
    assert forall x: string, y: string :: "/" + x == "/" + y ==> x == y by {
      forall x: string, y: string | "/" + x == "/" + y
        ensures x == y
      {
        assert ("/" + x)[1..] == x && ("/" + y)[1..] == y;
      }
    }
    var p, q := Join(a, '/'), Join(b, '/');
    if a != [] {
      JoinPrefix(a, b);
      assert "/" + p + "/" == "/" + (p + "/");
      assert "/" + (p + "/") <= "/" + q <==> p + "/" <= q by {
        assert ("/" + (p + "/"))[1..] == p + "/" && ("/" + q)[1..] == q;
      }
    }
  }

  lemma JoinEmpty()
    ensures Join([], '/') == ""
  {
  }

  /** The string tests decide exactly the segment-wise relation. */
  lemma GlobRefinement(pattern: string, path: string)
    ensures MatchPathGlob(pattern, path) <==> GlobCovers(pattern, path)
  {
    hide Segments, CanonicalizePath, Join, IsSafe;
    CanonicalForm(path);
    if EndsWith(pattern, "/*") {
      var base := GlobBase(pattern);
      CanonicalForm(base);
      CanonicalComparison(Segments(base), Segments(path));
      GlobSafety(pattern);
      assert forall other :: Segments(pattern) == other + ["*"] ==> other == Segments(base) by {
        forall other | Segments(pattern) == other + ["*"]
          ensures other == Segments(base)
        {
          assert (other + ["*"])[..|other|] == other && (Segments(base) + ["*"])[..|Segments(base)|] == Segments(base);
        }
      }
    } else {
      CanonicalForm(pattern);
      CanonicalComparison(Segments(pattern), Segments(path));
    }
  }

  lemma GlobSafety(pattern: string)
    requires EndsWith(pattern, "/*")
    ensures IsSafe(pattern) <==> IsSafe(GlobBase(pattern))
    ensures Segments(pattern) == Segments(GlobBase(pattern)) + ["*"]
  {
    hide Segments, GlobBase;
    GlobSegments(pattern);
  }
}
