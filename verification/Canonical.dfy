/** Canonical strings, resources and requests. */
module Canonical {
  import opened Wrappers
  import opened Values

  // ------------------------------------------------------------------ strings

  predicate IsSpace(c: char)
  {
    || '\U{0009}' <= c <= '\U{000d}' || '\U{001c}' <= c <= '\U{0020}'
    || c == '\U{0085}' || c == '\U{00a0}' || c == '\U{1680}'
    || '\U{2000}' <= c <= '\U{200a}' || c == '\U{2028}' || c == '\U{2029}'
    || c == '\U{202f}' || c == '\U{205f}' || c == '\U{3000}'
  }

  function StripLeft(s: string): string
  {
    if s != "" && IsSpace(s[0]) then StripLeft(s[1..]) else s
  }

  function StripRight(s: string): string
  {
    if s != "" && IsSpace(s[|s|-1]) then StripRight(s[..|s|-1]) else s
  }

  function Strip(s: string): string { StripRight(StripLeft(s)) }

  function LowerChar(c: char): char
  {
    if 'A' <= c <= 'Z' then ((c as int) + 32) as char else c
  }

  function Lower(s: string): string
  {
    seq(|s|, i requires 0 <= i < |s| => LowerChar(s[i]))
  }

  predicate IsTrimmed(s: string)
  {
    s != "" ==> !IsSpace(s[0]) && !IsSpace(s[|s|-1])
  }

  predicate IsBlank(s: string)
  {
    forall i | 0 <= i < |s| :: IsSpace(s[i])
  }

  lemma {:induction false} StripLeftMeaning(s: string) returns (n: nat)
    ensures n <= |s| && StripLeft(s) == s[n..] && IsBlank(s[..n])
    ensures StripLeft(s) != "" ==> !IsSpace(StripLeft(s)[0])
  {
    n := 0;
    if s != "" && IsSpace(s[0]) {
      n := StripLeftMeaning(s[1..]);
      assert s[..n+1] == [s[0]] + s[1..][..n] && s[n+1..] == s[1..][n..];
      n := n + 1;
    }
  }

  lemma {:induction false} StripRightMeaning(s: string) returns (n: nat)
    ensures n <= |s| && StripRight(s) == s[..n] && IsBlank(s[n..])
    ensures StripRight(s) != "" ==> !IsSpace(StripRight(s)[|StripRight(s)|-1])
  {
    n := |s|;
    if s != "" && IsSpace(s[|s|-1]) {
      n := StripRightMeaning(s[..|s|-1]);
      assert s[n..] == s[..|s|-1][n..] + [s[|s|-1]] && s[..n] == s[..|s|-1][..n];
    }
  }

  /** `strip` takes away whitespace at both ends, all of it, and nothing else. */
  lemma StripMeaning(s: string) returns (front: string, back: string)
    ensures s == front + Strip(s) + back
    ensures IsBlank(front) && IsBlank(back) && IsTrimmed(Strip(s))
  {
    var n := StripLeftMeaning(s);
    var m := StripRightMeaning(StripLeft(s));
    front, back := s[..n], StripLeft(s)[m..];
    if Strip(s) != "" { assert Strip(s)[0] == StripLeft(s)[0]; }
  }

  /** Hence a text is its own strip exactly when it has no whitespace at either end. */
  lemma StrippedIsTrimmed(s: string)
    ensures s == Strip(s) <==> IsTrimmed(s)
    ensures Strip(s) == "" <==> IsBlank(s)
  {
    var front, back := StripMeaning(s);
    assert front != "" ==> s[0] == front[0];
    assert back != "" ==> s[|s|-1] == back[|back|-1];
    assert Strip(s) != "" ==> s[|front|] == Strip(s)[0];
    assert Strip(s) == "" ==> s == front + back;
  }

  /** A text is its own lower case exactly when it has no ASCII capital. */
  lemma LowerMeaning(s: string)
    ensures |Lower(s)| == |s|
    ensures forall i | 0 <= i < |s| ::
      if 'A' <= s[i] <= 'Z' then Lower(s)[i] as int == s[i] as int + 32 else Lower(s)[i] == s[i]
    ensures Lower(s) == s <==> forall i | 0 <= i < |s| :: !('A' <= s[i] <= 'Z')
  {
    if forall i | 0 <= i < |s| :: !('A' <= s[i] <= 'Z') {
      assert Lower(s) == s;
    } else {
      var i :| 0 <= i < |s| && 'A' <= s[i] <= 'Z';
      assert Lower(s)[i] != s[i];
    }
  }

  // ---------------------------------------------------------------- resources

  /** The number of characters before the first '/'. */
  function SegmentLength(s: string): (n: nat)
    ensures n <= |s|
  {
    if s == "" || s[0] == '/' then 0 else 1 + SegmentLength(s[1..])
  }

  /** The parts of a POSIX path below its root: empty and "." parts vanish. */
  function Segments(s: string): seq<string>
    decreases |s|
  {
    if s == "" then []
    else
      var n := SegmentLength(s);
      var rest := if n == |s| then [] else Segments(s[n+1..]);
      if s[..n] == "" || s[..n] == "." then rest else [s[..n]] + rest
  }

  /** Exactly two leading slashes are a root of their own; any other number counts as one. */
  function Root(s: string): string
  {
    if s == "" || s[0] != '/' then ""
    else if |s| > 1 && s[1] == '/' && (|s| == 2 || s[2] != '/') then "//"
    else "/"
  }

  function Join(segments: seq<string>): string
  {
    if segments == [] then ""
    else if |segments| == 1 then segments[0]
    else segments[0] + "/" + Join(segments[1..])
  }

  function Render(root: string, segments: seq<string>): string
  {
    if root == "" && segments == [] then "." else root + Join(segments)
  }

  function CanonicalizeResource(resource: string): Option<string>
  {
    if resource == "" then Some("")
    else if '\\' in resource then None
    else if ".." in Segments(resource) then None
    else Some(Render(Root(resource), Segments(resource)))
  }

  predicate CleanSegment(s: string) { s != "" && s != "." && '/' !in s }

  predicate CleanSegments(segments: seq<string>)
  {
    forall i | 0 <= i < |segments| :: CleanSegment(segments[i])
  }

  lemma {:induction false} SegmentBeforeSlash(s: string)
    ensures '/' !in s[..SegmentLength(s)]
    ensures SegmentLength(s) < |s| ==> s[SegmentLength(s)] == '/'
  {
    if s != "" && s[0] != '/' {
      SegmentBeforeSlash(s[1..]);
      assert s[..SegmentLength(s)] == [s[0]] + s[1..][..SegmentLength(s[1..])];
    }
  }

  lemma {:induction false} SegmentsAreClean(s: string)
    ensures CleanSegments(Segments(s))
    ensures '\\' !in s ==> forall i | 0 <= i < |Segments(s)| :: '\\' !in Segments(s)[i]
    decreases |s|
  {
    if s != "" {
      SegmentBeforeSlash(s);
      var n := SegmentLength(s);
      if n < |s| { SegmentsAreClean(s[n+1..]); }
    }
  }

  lemma {:induction false} SegmentLengthOfPrefix(a: string, b: string)
    requires '/' !in a
    requires b == "" || b[0] == '/'
    ensures SegmentLength(a + b) == |a|
  {
    if a == "" {
      assert a + b == b;
    } else {
      assert (a + b)[1..] == a[1..] + b;
      SegmentLengthOfPrefix(a[1..], b);
    }
  }

  lemma {:induction false} SegmentsOfJoin(segments: seq<string>)
    requires CleanSegments(segments)
    ensures Segments(Join(segments)) == segments
  {
    if segments != [] {
      var head, tail := segments[0], segments[1..];
      OneSegment(head);
      if tail != [] {
        assert Join(segments) == head + ("/" + Join(tail));
        hide Segments, Join;
        SegmentsStep(head, Join(tail));
        SegmentsOfJoin(tail);
      }
    }
  }

  lemma SlashAddsNoSegment(s: string)
    ensures Segments("/" + s) == Segments(s)
  {
    assert ("/" + s)[1..] == s;
    assert ("/" + s)[..0] == "";
  }

  lemma {:induction false} JoinStartsClean(segments: seq<string>)
    requires CleanSegments(segments)
    ensures segments != [] ==> Join(segments) != "" && Join(segments)[0] != '/'
    ensures segments == [] ==> Join(segments) == ""
  {
    if segments != [] {
      assert segments[0][0] in segments[0];
    }
  }

  lemma {:induction false} JoinHasNoBackslash(segments: seq<string>)
    requires forall i | 0 <= i < |segments| :: '\\' !in segments[i]
    ensures '\\' !in Join(segments)
  {
    if |segments| > 1 { JoinHasNoBackslash(segments[1..]); }
  }

  /** Rendering clean parts under a root and reading them back loses nothing. */
  lemma RenderRoundTrip(root: string, segments: seq<string>)
    requires root == "" || root == "/" || root == "//"
    requires CleanSegments(segments)
    ensures Root(Render(root, segments)) == root
    ensures Segments(Render(root, segments)) == segments
  {
    var path := Render(root, segments);
    SegmentsOfJoin(segments);
    JoinStartsClean(segments);
    if root == "" {
      if segments == [] {
        assert Segments(".") == [] by { assert SegmentLength(".") == 1; }
      } else {
        assert path == Join(segments);
      }
    } else if root == "/" {
      SlashAddsNoSegment(Join(segments));
    } else {
      assert path == "/" + ("/" + Join(segments));
      SlashAddsNoSegment("/" + Join(segments));
      SlashAddsNoSegment(Join(segments));
    }
  }

  /** A canonical resource is a fixed point with the same parts and no "..". */
  lemma CanonicalResourceIsStable(resource: string)
    requires CanonicalizeResource(resource).Some?
    ensures var canonical := CanonicalizeResource(resource).value;
      && CanonicalizeResource(canonical) == Some(canonical)
      && Segments(canonical) == Segments(resource)
      && ".." !in Segments(canonical)
      && (canonical == "" <==> resource == "")
  {
    if resource != "" {
      var canonical := CanonicalizeResource(resource).value;
      SegmentsAreClean(resource);
      RenderRoundTrip(Root(resource), Segments(resource));
      JoinHasNoBackslash(Segments(resource));
      JoinStartsClean(Segments(resource));
      assert '\\' !in canonical;
    }
  }

  /** A text without slash is at most one part. */
  lemma OneSegment(s: string)
    requires '/' !in s
    ensures Segments(s) == if s == "" || s == "." then [] else [s]
  {
    SegmentLengthOfPrefix(s, "");
    assert s + "" == s && s[..|s|] == s;
  }

  lemma SegmentsStep(head: string, rest: string)
    requires '/' !in head
    ensures Segments(head + ("/" + rest)) == Segments(head) + Segments(rest)
  {
    var s := head + ("/" + rest);
    SegmentLengthOfPrefix(head, "/" + rest);
    assert s[|head|+1..] == rest && s[..|head|] == head;
    OneSegment(head);
  }

  /** A slash separates the parts before it from the parts after it. */
  lemma {:induction false} SegmentsOfPath(a: string, b: string)
    ensures Segments(a + ("/" + b)) == Segments(a) + Segments(b)
    decreases |a|
  {
    hide Segments;
    var n := SegmentLength(a);
    SegmentBeforeSlash(a);
    if n == |a| {
      assert a[..n] == a;
      SegmentsStep(a, b);
    } else {
      var head, rest := a[..n], a[n+1..];
      assert a == head + ("/" + rest);
      assert a + ("/" + b) == head + ("/" + (rest + ("/" + b)));
      SegmentsStep(head, rest);
      SegmentsStep(head, rest + ("/" + b));
      SegmentsOfPath(rest, b);
    }
  }

  /** What is refused: backslashes and parent segments. */
  lemma ResourceAccepted(resource: string)
    ensures CanonicalizeResource(resource).Some? <==> '\\' !in resource && ".." !in Segments(resource)
  {
    if resource == "" { assert Segments(resource) == []; }
  }

  /** Two resources have one canonical form if and only if they share root and parts, and both or neither are empty. */
  lemma SameCanonicalResource(a: string, b: string)
    requires CanonicalizeResource(a).Some? && CanonicalizeResource(b).Some?
    ensures CanonicalizeResource(a) == CanonicalizeResource(b) <==>
      Root(a) == Root(b) && Segments(a) == Segments(b) && (a == "" <==> b == "")
  {
    CanonicalResourceKeepsRoot(a);
    CanonicalResourceKeepsRoot(b);
    CanonicalResourceIsStable(a);
    CanonicalResourceIsStable(b);
    hide Segments, Root;
    assert CanonicalizeResource("") == Some("");
  }

  /** A canonical resource is absolute exactly when the input is, with the same root. */
  lemma CanonicalResourceKeepsRoot(resource: string)
    requires CanonicalizeResource(resource).Some?
    ensures Root(CanonicalizeResource(resource).value) == Root(resource)
    ensures var canonical := CanonicalizeResource(resource).value;
      (canonical != "" && canonical[0] == '/') <==> (resource != "" && resource[0] == '/')
  {
    if resource != "" {
      SegmentsAreClean(resource);
      RenderRoundTrip(Root(resource), Segments(resource));
    }
  }

  // ----------------------------------------------------------------- requests

  datatype Request = Request(
    subject: string,
    session: string,
    tool: string,
    action: string,
    resource: string,
    params: Value,
    purpose: string,
    capabilityId: string,
    nonce: string,
    observedVersion: Option<int>,
    context: Value)
  {
    function Fields(): map<string, Value>
    {
      if params.Obj? then params.fields else map[]
    }

    function ActionKey(): string { tool + ":" + action }
  }

  const MAX_REQUEST_DEPTH: nat := 64

  predicate Identifier(s: string) { Strip(s) != "" && s == Strip(s) }

  /** `canonicalize_request`: `None` stands for CanonicalizationError. */
  function Canonicalize(r: Request): Option<Request>
  {
    if !(Identifier(r.subject) && Identifier(r.session) && Identifier(r.tool) &&
         Identifier(r.action) && Identifier(r.capabilityId) && Identifier(r.nonce)) then None
    else if r.purpose != Strip(r.purpose) then None
    else if !r.params.Obj? || !r.context.Obj? then None
    else if r.observedVersion.Some? && r.observedVersion.value < 0 then None
    else if Lower(r.tool) != r.tool || Lower(r.action) != r.action then None
    else
      var params, context := Normalize(r.params, 0, MAX_REQUEST_DEPTH), Normalize(r.context, 0, MAX_REQUEST_DEPTH);
      var resource := CanonicalizeResource(r.resource);
      if params.None? || context.None? || resource.None? then None
      else Some(r.(params := params.value, context := context.value, resource := resource.value))
  }

  predicate ProperIdentifier(s: string) { s != "" && IsTrimmed(s) }

  predicate NoCapitals(s: string)
  {
    forall i | 0 <= i < |s| :: !('A' <= s[i] <= 'Z')
  }

  /** Which requests are accepted, and that nothing but parameters, context and resource is rewritten. */
  lemma CanonicalizeMeaning(r: Request)
    ensures Canonicalize(r).Some? <==>
      && ProperIdentifier(r.subject) && ProperIdentifier(r.session) && ProperIdentifier(r.tool)
      && ProperIdentifier(r.action) && ProperIdentifier(r.capabilityId) && ProperIdentifier(r.nonce)
      && IsTrimmed(r.purpose) && NoCapitals(r.tool) && NoCapitals(r.action)
      && r.params.Obj? && IsPlain(r.params) && Height(r.params) <= 64
      && r.context.Obj? && IsPlain(r.context) && Height(r.context) <= 64
      && '\\' !in r.resource && ".." !in Segments(r.resource)
      && (r.observedVersion.Some? ==> r.observedVersion.value >= 0)
    ensures Canonicalize(r).Some? ==>
      var c := Canonicalize(r).value;
      && c == r.(params := c.params, context := c.context, resource := c.resource)
      && JsonEqual(r.params, c.params) && JsonEqual(r.context, c.context)
      && Root(c.resource) == Root(r.resource) && Segments(c.resource) == Segments(r.resource)
  {
    IdentifierMeaning(r.subject); IdentifierMeaning(r.session); IdentifierMeaning(r.tool);
    IdentifierMeaning(r.action); IdentifierMeaning(r.capabilityId); IdentifierMeaning(r.nonce);
    StrippedIsTrimmed(r.purpose);
    LowerMeaning(r.tool);
    LowerMeaning(r.action);
    NormalizeAccepts(r.params, 0, MAX_REQUEST_DEPTH);
    NormalizeAccepts(r.context, 0, MAX_REQUEST_DEPTH);
    ResourceAccepted(r.resource);
    hide Identifier, Strip, IsTrimmed, Lower, IsPlain, Height, Normalize, CanonicalizeResource, Segments, Root,
         JsonEqual;
    if Canonicalize(r).Some? {
      NormalizeIdempotent(r.params, 0, MAX_REQUEST_DEPTH, Canonicalize(r).value.params);
      NormalizeIdempotent(r.context, 0, MAX_REQUEST_DEPTH, Canonicalize(r).value.context);
      CanonicalResourceIsStable(r.resource);
      CanonicalResourceKeepsRoot(r.resource);
    }
  }

  lemma IdentifierMeaning(s: string)
    ensures Identifier(s) <==> ProperIdentifier(s)
  {
    StrippedIsTrimmed(s);
    hide Strip;
  }

  lemma CanonicalParts(r: Request)
    requires Canonicalize(r).Some?
    ensures var c := Canonicalize(r).value;
      && Normalize(c.params, 0, MAX_REQUEST_DEPTH) == Some(c.params)
      && Normalize(c.context, 0, MAX_REQUEST_DEPTH) == Some(c.context)
      && CanonicalizeResource(c.resource) == Some(c.resource)
      && c.params.Obj? && c.context.Obj? && NaNFree(c.params)
      && Height(c.params) <= MAX_REQUEST_DEPTH
      && ".." !in Segments(c.resource)
  {
    var c := Canonicalize(r).value;
    NormalizeIdempotent(r.params, 0, MAX_REQUEST_DEPTH, c.params);
    NormalizeIdempotent(r.context, 0, MAX_REQUEST_DEPTH, c.context);
    CanonicalResourceIsStable(r.resource);
  }

  /** Canonicalizing a canonical request changes nothing, so its digest is stable. */
  lemma CanonicalizeIdempotent(r: Request)
    requires Canonicalize(r).Some?
    ensures var c := Canonicalize(r).value;
      && Canonicalize(c) == Some(c)
      && c.params.Obj? && NaNFree(c.params)
      && Height(c.params) <= MAX_REQUEST_DEPTH
      && Lower(Strip(c.action)) == c.action
      && ".." !in Segments(c.resource)
  {
    hide Strip, Lower, CanonicalizeResource, Normalize, Segments, NaNFree, Height;
    CanonicalParts(r);
  }

  /** A request's canonical form does not depend on which of its sequences are tuples. */
  lemma CanonicalizeIgnoresTuples(r: Request)
    ensures Canonicalize(r.(params := Listed(r.params), context := Listed(r.context))) == Canonicalize(r)
  {
    NormalizeIgnoresTuples(r.params, 0, MAX_REQUEST_DEPTH);
    NormalizeIgnoresTuples(r.context, 0, MAX_REQUEST_DEPTH);
    hide Strip, Lower, CanonicalizeResource, Normalize;
  }
}
