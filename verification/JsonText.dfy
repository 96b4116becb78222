/**
 * The nesting guard around JSON decoding: the lexical scan of the text, the
 * worklist over the decoded value, and the nesting both of them bound.
 */
module JsonText {
  import opened Wrappers

  const MAX_DEPTH: int := 128

  // ------------------------------------------------------------------ JSON text

  /** One character of a JSON string, as section 7 of RFC 8259 allows it to be written. */
  datatype StringChar =
    | Plain(c: char)
    | Escape(c: char)
    | Unicode(h0: char, h1: char, h2: char, h3: char)

  /** A JSON text with its insignificant whitespace: sections 2 to 7 of RFC 8259. */
  datatype Document = Document(lead: string, node: Node, trail: string)

  datatype Node =
    | Literal(text: string)
    | Text(chars: seq<StringChar>)
    | Array(inner: string, items: seq<Document>)
    | Object(inner: string, members: seq<Member>)

  datatype Member = Member(lead: string, key: seq<StringChar>, trail: string, value: Document)

  predicate IsBlank(s: string)
  {
    forall i | 0 <= i < |s| :: s[i] == ' ' || s[i] == '\t' || s[i] == '\n' || s[i] == '\r'
  }

  predicate IsHex(c: char) { '0' <= c <= '9' || 'a' <= c <= 'f' || 'A' <= c <= 'F' }

  predicate ValidChar(x: StringChar)
  {
    match x
    case Plain(c) => c != '"' && c != '\\' && c >= ' '
    case Escape(c) => c in "\"\\/bfnrt"
    case Unicode(a, b, c, d) => IsHex(a) && IsHex(b) && IsHex(c) && IsHex(d)
  }

  predicate ValidChars(chars: seq<StringChar>)
  {
    forall i | 0 <= i < |chars| :: ValidChar(chars[i])
  }

  /** Numbers and the words true, false and null contain neither quotes nor brackets. */
  predicate ValidLiteral(s: string)
  {
    s != "" && forall i | 0 <= i < |s| ::
      '0' <= s[i] <= '9' || 'a' <= s[i] <= 'z' || s[i] == 'E' || s[i] == '+' || s[i] == '-' || s[i] == '.'
  }

  predicate Valid(d: Document)
  {
    IsBlank(d.lead) && IsBlank(d.trail) && ValidNode(d.node)
  }

  predicate ValidNode(n: Node)
  {
    match n
    case Literal(s) => ValidLiteral(s)
    case Text(chars) => ValidChars(chars)
    case Array(inner, items) => IsBlank(inner) && forall i | 0 <= i < |items| :: Valid(items[i])
    case Object(inner, members) => IsBlank(inner) && forall i | 0 <= i < |members| ::
      IsBlank(members[i].lead) && ValidChars(members[i].key) && IsBlank(members[i].trail) && Valid(members[i].value)
  }

  function PrintChar(x: StringChar): string
  {
    match x
    case Plain(c) => [c]
    case Escape(c) => ['\\', c]
    case Unicode(a, b, c, d) => ['\\', 'u', a, b, c, d]
  }

  function PrintChars(chars: seq<StringChar>): string
  {
    if chars == [] then "" else PrintChar(chars[0]) + PrintChars(chars[1..])
  }

  function Quoted(chars: seq<StringChar>): string
  {
    "\"" + PrintChars(chars) + "\""
  }

  function Print(d: Document): string
    decreases d, 1
  {
    d.lead + PrintNode(d.node) + d.trail
  }

  function PrintNode(n: Node): string
    decreases n, 1
  {
    match n
    case Literal(s) => s
    case Text(chars) => Quoted(chars)
    case Array(inner, items) => "[" + (if items == [] then inner else PrintItems(items)) + "]"
    case Object(inner, members) => "{" + (if members == [] then inner else PrintMembers(members)) + "}"
  }

  function PrintItems(items: seq<Document>): string
    decreases items, 0
  {
    if items == [] then ""
    else if |items| == 1 then Print(items[0])
    else Print(items[0]) + ("," + PrintItems(items[1..]))
  }

  function PrintMember(m: Member): string
    decreases m, 0
  {
    m.lead + (Quoted(m.key) + (m.trail + (":" + Print(m.value))))
  }

  function PrintMembers(members: seq<Member>): string
    decreases members, 0
  {
    if members == [] then ""
    else if |members| == 1 then PrintMember(members[0])
    else PrintMember(members[0]) + ("," + PrintMembers(members[1..]))
  }

  function Max(a: nat, b: nat): nat { if a < b then b else a }

  /** How many containers nest inside each other. */
  function Nesting(d: Document): nat
    decreases d, 1
  {
    match d.node
    case Literal(_) => 0
    case Text(_) => 0
    case Array(_, items) => 1 + NestingOfItems(items)
    case Object(_, members) => 1 + NestingOfMembers(members)
  }

  function NestingOfItems(items: seq<Document>): nat
    decreases items, 0
  {
    if items == [] then 0 else Max(Nesting(items[0]), NestingOfItems(items[1..]))
  }

  function NestingOfMembers(members: seq<Member>): nat
    decreases members, 0
  {
    if members == [] then 0 else Max(Nesting(members[0].value), NestingOfMembers(members[1..]))
  }

  // -------------------------------------------------------------- lexical scan

  datatype Scanner = Scanner(depth: int, quoted: bool, escaped: bool)

  const START: Scanner := Scanner(0, false, false)

  /** One character of the scan; `None` stands for the ValueError on excessive nesting. */
  function Step(s: Scanner, c: char): Option<Scanner>
  {
    if s.quoted then
      if s.escaped then Some(s.(escaped := false))
      else if c == '\\' then Some(s.(escaped := true))
      else if c == '"' then Some(s.(quoted := false))
      else Some(s)
    else if c == '"' then Some(s.(quoted := true))
    else if c == '[' || c == '{' then
      if s.depth + 1 > MAX_DEPTH then None else Some(s.(depth := s.depth + 1))
    else if c == ']' || c == '}' then Some(s.(depth := s.depth - 1))
    else Some(s)
  }

  function Scan(s: Scanner, text: string): Option<Scanner>
    decreases |text|
  {
    if text == "" then Some(s)
    else
      match Step(s, text[0])
      case None => None
      case Some(next) => Scan(next, text[1..])
  }

  lemma {:induction false} ScanAppend(s: Scanner, a: string, b: string)
    ensures Scan(s, a + b) == (match Scan(s, a) case None => None case Some(next) => Scan(next, b))
    decreases |a|
  {
    if a == "" {
      assert a + b == b;
    } else {
      assert (a + b)[1..] == a[1..] + b;
      match Step(s, a[0])
      case None =>
      case Some(next) => ScanAppend(next, a[1..], b);
    }
  }

  /** The scan loop of `loads_unique`. */
  method LexicalScan(text: string) returns (ok: bool)
    ensures ok <==> Scan(START, text).Some?
  {
    var depth, quoted, escaped := 0, false, false;
    for i := 0 to |text|
      invariant Scan(START, text[..i]) == Some(Scanner(depth, quoted, escaped))
    {
      var c := text[i];
      assert text[..i+1] == text[..i] + [c];
      ScanAppend(START, text[..i], [c]);
      ScanOne(Scanner(depth, quoted, escaped), c);
      if quoted {
        if escaped {
          escaped := false;
        } else if c == '\\' {
          escaped := true;
        } else if c == '"' {
          quoted := false;
        }
      } else if c == '"' {
        quoted := true;
      } else if c == '[' || c == '{' {
        depth := depth + 1;
        if depth > MAX_DEPTH {
          assert text == text[..i+1] + text[i+1..];
          ScanAppend(START, text[..i+1], text[i+1..]);
          return false;
        }
      } else if c == ']' || c == '}' {
        depth := depth - 1;
      }
    }
    assert text[..|text|] == text;
    ok := true;
  }

  lemma ScanOne(s: Scanner, c: char)
    ensures Scan(s, [c]) == Step(s, c)
  {
    assert [c][1..] == "";
  }

  // ------------------------------------------------------- scan meets structure

  /** A text that changes nothing when read outside quotes. */
  lemma {:induction false} ScanInert(depth: int, s: string)
    requires forall i | 0 <= i < |s| :: s[i] !in "\"[]{}"
    ensures Scan(Scanner(depth, false, false), s) == Some(Scanner(depth, false, false))
  {
    if s != "" {
      assert s[0] !in "\"[]{}";
      assert forall i | 0 <= i < |s| - 1 :: s[1..][i] == s[i+1];
      ScanInert(depth, s[1..]);
    }
  }

  lemma ScanChar(depth: int, x: StringChar)
    requires ValidChar(x)
    ensures Scan(Scanner(depth, true, false), PrintChar(x)) == Some(Scanner(depth, true, false))
  {
    hide Scan;
    var inside, escaping := Scanner(depth, true, false), Scanner(depth, true, true);
    match x
    case Plain(c) => ScanOne(inside, c);
    case Escape(c) =>
      assert PrintChar(x) == ['\\'] + [c];
      ScanAppend(inside, ['\\'], [c]);
      ScanOne(inside, '\\');
      ScanOne(escaping, c);
    case Unicode(a, b, c, d) =>
      assert PrintChar(x) == ['\\'] + (['u'] + ([a] + ([b] + ([c] + [d]))));
      ScanAppend(inside, ['\\'], ['u'] + ([a] + ([b] + ([c] + [d]))));
      ScanAppend(escaping, ['u'], [a] + ([b] + ([c] + [d])));
      ScanAppend(inside, [a], [b] + ([c] + [d]));
      ScanAppend(inside, [b], [c] + [d]);
      ScanAppend(inside, [c], [d]);
      ScanOne(inside, '\\'); ScanOne(escaping, 'u');
      ScanOne(inside, a); ScanOne(inside, b); ScanOne(inside, c); ScanOne(inside, d);
  }

  lemma {:induction false} ScanChars(depth: int, chars: seq<StringChar>)
    requires ValidChars(chars)
    ensures Scan(Scanner(depth, true, false), PrintChars(chars)) == Some(Scanner(depth, true, false))
  {
    if chars != [] {
      ScanChar(depth, chars[0]);
      ScanAppend(Scanner(depth, true, false), PrintChar(chars[0]), PrintChars(chars[1..]));
      ScanChars(depth, chars[1..]);
    }
  }

  /** Brackets, quotes and backslashes inside a string are data: the scan comes out where it went in. */
  lemma ScanQuoted(depth: int, chars: seq<StringChar>)
    requires ValidChars(chars)
    ensures Scan(Scanner(depth, false, false), Quoted(chars)) == Some(Scanner(depth, false, false))
  {
    var outside, inside := Scanner(depth, false, false), Scanner(depth, true, false);
    assert Quoted(chars) == "\"" + (PrintChars(chars) + "\"");
    ScanAppend(outside, "\"", PrintChars(chars) + "\"");
    ScanOne(outside, '"');
    ScanAppend(inside, PrintChars(chars), "\"");
    ScanChars(depth, chars);
    ScanOne(inside, '"');
  }

  /** Passing from nesting `n` at depth `depth`: unchanged, or an error exactly when the limit is exceeded. */
  function Verdict(depth: int, n: nat): Option<Scanner>
  {
    if depth + n > MAX_DEPTH then None else Some(Scanner(depth, false, false))
  }

  lemma {:induction false} ScanDocument(depth: int, d: Document)
    requires Valid(d) && depth <= MAX_DEPTH
    ensures Scan(Scanner(depth, false, false), Print(d)) == Verdict(depth, Nesting(d))
    decreases d, 3
  {
    hide Scan, Step, PrintNode, ValidNode;
    var s := Scanner(depth, false, false);
    ScanInert(depth, d.lead);
    ScanInert(depth, d.trail);
    assert Print(d) == d.lead + (PrintNode(d.node) + d.trail);
    ScanAppend(s, d.lead, PrintNode(d.node) + d.trail);
    ScanAppend(s, PrintNode(d.node), d.trail);
    ScanNode(depth, d);
  }

  lemma {:induction false} ScanNode(depth: int, d: Document)
    requires ValidNode(d.node) && depth <= MAX_DEPTH
    ensures Scan(Scanner(depth, false, false), PrintNode(d.node)) == Verdict(depth, Nesting(d))
    decreases d, 2
  {
    hide Scan, Step;
    match d.node
    case Literal(text) => ScanInert(depth, text);
    case Text(chars) => ScanQuoted(depth, chars);
    case Array(inner, items) =>
      if depth < MAX_DEPTH {
        if items == [] { ScanInert(depth + 1, inner); } else { ScanItems(depth + 1, items); }
      }
      ScanBracketed(depth, '[', if items == [] then inner else PrintItems(items), ']', NestingOfItems(items));
    case Object(inner, members) =>
      if depth < MAX_DEPTH {
        if members == [] { ScanInert(depth + 1, inner); } else { ScanMembers(depth + 1, members); }
      }
      ScanBracketed(depth, '{', if members == [] then inner else PrintMembers(members), '}', NestingOfMembers(members));
  }

  lemma ScanBracketed(depth: int, open: char, body: string, close: char, n: nat)
    requires (open == '[' && close == ']') || (open == '{' && close == '}')
    requires depth < MAX_DEPTH ==> Scan(Scanner(depth + 1, false, false), body) == Verdict(depth + 1, n)
    ensures Scan(Scanner(depth, false, false), [open] + body + [close]) ==
      if depth >= MAX_DEPTH then None else Verdict(depth, 1 + n)
  {
    var s, inner := Scanner(depth, false, false), Scanner(depth + 1, false, false);
    assert [open] + body + [close] == [open] + (body + [close]);
    ScanAppend(s, [open], body + [close]);
    ScanOne(s, open);
    ScanAppend(inner, body, [close]);
    ScanOne(inner, close);
  }

  /** Two consecutive pieces separated by a comma. */
  lemma ScanPair(depth: int, first: string, n: nat, rest: string, m: nat)
    requires Scan(Scanner(depth, false, false), first) == Verdict(depth, n)
    requires Scan(Scanner(depth, false, false), rest) == Verdict(depth, m)
    ensures Scan(Scanner(depth, false, false), first + ("," + rest)) == Verdict(depth, Max(n, m))
  {
    var s := Scanner(depth, false, false);
    ScanAppend(s, first, "," + rest);
    ScanAppend(s, ",", rest);
    ScanOne(s, ',');
  }

  lemma {:induction false} ScanItems(depth: int, items: seq<Document>)
    requires items != [] && depth <= MAX_DEPTH && forall i | 0 <= i < |items| :: Valid(items[i])
    ensures Scan(Scanner(depth, false, false), PrintItems(items)) == Verdict(depth, NestingOfItems(items))
    decreases items, 0
  {
    ScanDocument(depth, items[0]);
    if |items| > 1 {
      ScanItems(depth, items[1..]);
      ScanPair(depth, Print(items[0]), Nesting(items[0]), PrintItems(items[1..]), NestingOfItems(items[1..]));
    } else {
      assert items[1..] == [];
    }
  }

  lemma {:induction false} ScanMember(depth: int, m: Member)
    requires IsBlank(m.lead) && ValidChars(m.key) && IsBlank(m.trail) && Valid(m.value) && depth <= MAX_DEPTH
    ensures Scan(Scanner(depth, false, false), PrintMember(m)) == Verdict(depth, Nesting(m.value))
    decreases m, 0
  {
    var s := Scanner(depth, false, false);
    ScanInert(depth, m.lead);
    ScanQuoted(depth, m.key);
    ScanInert(depth, m.trail);
    ScanOne(s, ':');
    ScanDocument(depth, m.value);
    ScanAppend(s, m.lead, Quoted(m.key) + (m.trail + (":" + Print(m.value))));
    ScanAppend(s, Quoted(m.key), m.trail + (":" + Print(m.value)));
    ScanAppend(s, m.trail, ":" + Print(m.value));
    ScanAppend(s, ":", Print(m.value));
  }

  lemma {:induction false} ScanMembers(depth: int, members: seq<Member>)
    requires members != [] && depth <= MAX_DEPTH
    requires forall i | 0 <= i < |members| ::
      IsBlank(members[i].lead) && ValidChars(members[i].key) && IsBlank(members[i].trail) && Valid(members[i].value)
    ensures Scan(Scanner(depth, false, false), PrintMembers(members)) == Verdict(depth, NestingOfMembers(members))
    decreases members, 0
  {
    ScanMember(depth, members[0]);
    if |members| > 1 {
      ScanMembers(depth, members[1..]);
      ScanPair(depth, PrintMember(members[0]), Nesting(members[0].value),
               PrintMembers(members[1..]), NestingOfMembers(members[1..]));
    } else {
      assert members[1..] == [];
    }
  }

  /** The scan refines structure: it passes exactly the texts nested at most 128 deep, ending unquoted at depth 0. */
  lemma ScanMeasuresNesting(d: Document)
    requires Valid(d)
    ensures Scan(START, Print(d)) == if Nesting(d) <= MAX_DEPTH then Some(START) else None
  {
    ScanDocument(0, d);
  }

  // ----------------------------------------------------------------- worklist

  /** The decoded value, as far as the worklist looks at it. */
  datatype Parsed = Atom | Container(children: seq<Parsed>)

  function Parse(d: Document): Parsed
    decreases d
  {
    match d.node
    case Literal(_) => Atom
    case Text(_) => Atom
    case Array(_, items) => Container(seq(|items|, i requires 0 <= i < |items| => Parse(items[i])))
    case Object(_, members) => Container(seq(|members|, i requires 0 <= i < |members| => Parse(members[i].value)))
  }

  /** Every value inside `p` lies at most `limit` containers below it. */
  ghost predicate WithinDepth(p: Parsed, limit: int)
  {
    0 <= limit && (p.Container? ==> forall i | 0 <= i < |p.children| :: WithinDepth(p.children[i], limit - 1))
  }

  function Size(p: Parsed): nat
    decreases p, 1
  {
    if p.Atom? then 1 else 1 + SizeOf(p.children)
  }

  function SizeOf(ps: seq<Parsed>): nat
    decreases ps, 0
  {
    if ps == [] then 0 else Size(ps[0]) + SizeOf(ps[1..])
  }

  function Weight(pending: seq<(Parsed, int)>): nat
  {
    if pending == [] then 0 else Weight(pending[..|pending|-1]) + Size(pending[|pending|-1].0)
  }

  function Push(pending: seq<(Parsed, int)>, children: seq<Parsed>, depth: int): seq<(Parsed, int)>
  {
    pending + seq(|children|, i requires 0 <= i < |children| => (children[i], depth))
  }

  lemma {:induction false} PushWeight(pending: seq<(Parsed, int)>, children: seq<Parsed>, depth: int)
    ensures Weight(Push(pending, children, depth)) == Weight(pending) + SizeOf(children)
    decreases |children|
  {
    if children == [] {
      assert Push(pending, children, depth) == pending;
    } else {
      var first := pending + [(children[0], depth)];
      assert Push(pending, children, depth) == Push(first, children[1..], depth);
      PushWeight(first, children[1..], depth);
      assert first[..|pending|] == pending;
    }
  }

  ghost predicate PendingWithin(pending: seq<(Parsed, int)>)
  {
    forall i | 0 <= i < |pending| :: WithinDepth(pending[i].0, MAX_DEPTH - pending[i].1)
  }

  /** The post-parse loop of `loads_unique`: it accepts exactly the values within the depth limit. */
  method DrainWorklist(root: Parsed) returns (ok: bool)
    ensures ok <==> WithinDepth(root, MAX_DEPTH)
  {
    var pending: seq<(Parsed, int)> := [(root, 0)];
    while pending != []
      invariant WithinDepth(root, MAX_DEPTH) <==> PendingWithin(pending)
      decreases Weight(pending)
    {
      var (value, depth) := pending[|pending|-1];
      ghost var before := pending;
      pending := pending[..|pending|-1];
      ghost var rest := pending;
      assert before == rest + [(value, depth)];
      if depth > MAX_DEPTH {
        assert !WithinDepth(before[|before|-1].0, MAX_DEPTH - before[|before|-1].1);
        return false;
      }
      if value.Container? {
        pending := Push(pending, value.children, depth + 1);
        PushWeight(rest, value.children, depth + 1);
      }
      PopWithin(rest, value, depth, pending);
    }
    ok := true;
  }

  /** Replacing a value by its children at one level more asks the same question. */
  lemma PopWithin(rest: seq<(Parsed, int)>, value: Parsed, depth: int, after: seq<(Parsed, int)>)
    requires depth <= MAX_DEPTH
    requires after == if value.Container? then Push(rest, value.children, depth + 1) else rest
    ensures PendingWithin(rest + [(value, depth)]) <==> PendingWithin(after)
  {
    var before := rest + [(value, depth)];
    if PendingWithin(before) {
      assert WithinDepth(before[|rest|].0, MAX_DEPTH - before[|rest|].1);
      forall i | 0 <= i < |after| ensures WithinDepth(after[i].0, MAX_DEPTH - after[i].1) {
        if i < |rest| { assert after[i] == before[i]; }
      }
    }
    if PendingWithin(after) {
      forall i | 0 <= i < |before| ensures WithinDepth(before[i].0, MAX_DEPTH - before[i].1) {
        if i < |rest| {
          assert after[i] == before[i];
        } else if value.Container? {
          forall j | 0 <= j < |value.children| ensures WithinDepth(value.children[j], MAX_DEPTH - depth - 1) {
            assert after[|rest| + j] == (value.children[j], depth + 1);
          }
        }
      }
    }
  }

  lemma {:induction false} ItemsNesting(items: seq<Document>, i: nat)
    requires i < |items|
    ensures Nesting(items[i]) <= NestingOfItems(items)
  {
    if i > 0 { ItemsNesting(items[1..], i - 1); }
  }

  lemma {:induction false} MembersNesting(members: seq<Member>, i: nat)
    requires i < |members|
    ensures Nesting(members[i].value) <= NestingOfMembers(members)
  {
    if i > 0 { MembersNesting(members[1..], i - 1); }
  }

  lemma {:induction false} ParseWithin(d: Document, limit: int)
    requires Nesting(d) <= limit
    ensures WithinDepth(Parse(d), limit)
    decreases d
  {
    match d.node
    case Literal(_) =>
    case Text(_) =>
    case Array(_, items) =>
      forall i | 0 <= i < |items| ensures WithinDepth(Parse(items[i]), limit - 1) {
        ItemsNesting(items, i);
        ParseWithin(items[i], limit - 1);
      }
    case Object(_, members) =>
      forall i | 0 <= i < |members| ensures WithinDepth(Parse(members[i].value), limit - 1) {
        MembersNesting(members, i);
        ParseWithin(members[i].value, limit - 1);
      }
  }

  /** Once the scan has passed, the worklist's check can never fire. */
  lemma ScanMakesWorklistRedundant(d: Document)
    requires Valid(d) && Scan(START, Print(d)).Some?
    ensures WithinDepth(Parse(d), MAX_DEPTH)
  {
    ScanMeasuresNesting(d);
    ParseWithin(d, MAX_DEPTH);
  }

  /** The worklist alone would let one more level through, and never two. */
  lemma {:induction false} WithinNesting(d: Document, limit: int)
    requires WithinDepth(Parse(d), limit)
    ensures Nesting(d) <= limit + 1
    decreases d
  {
    match d.node
    case Literal(_) =>
    case Text(_) =>
    case Array(_, items) =>
      forall i | 0 <= i < |items| ensures Nesting(items[i]) <= limit {
        assert WithinDepth(Parse(d).children[i], limit - 1);
        WithinNesting(items[i], limit - 1);
      }
      ItemsBound(items, limit);
    case Object(_, members) =>
      forall i | 0 <= i < |members| ensures Nesting(members[i].value) <= limit {
        assert WithinDepth(Parse(d).children[i], limit - 1);
        WithinNesting(members[i].value, limit - 1);
      }
      MembersBound(members, limit);
  }

  lemma {:induction false} ItemsBound(items: seq<Document>, bound: int)
    requires 0 <= bound && forall i | 0 <= i < |items| :: Nesting(items[i]) <= bound
    ensures NestingOfItems(items) <= bound
  {
    if items != [] { ItemsBound(items[1..], bound); }
  }

  lemma {:induction false} MembersBound(members: seq<Member>, bound: int)
    requires 0 <= bound && forall i | 0 <= i < |members| :: Nesting(members[i].value) <= bound
    ensures NestingOfMembers(members) <= bound
  {
    if members != [] { MembersBound(members[1..], bound); }
  }

  /** `n` arrays inside one another, the innermost empty. */
  function Tower(n: nat): Document
  {
    Document("", Array("", if n <= 1 then [] else [Tower(n - 1)]), "")
  }

  lemma NestedOnce(d: Document)
    ensures Nesting(Document("", Array("", [d]), "")) == 1 + Nesting(d)
    ensures Valid(d) ==> Valid(Document("", Array("", [d]), ""))
  {
    assert [d][1..] == [];
    assert NestingOfItems([d]) == Max(Nesting(d), NestingOfItems([]));
  }

  lemma {:induction false} TowerNesting(n: nat)
    requires n >= 1
    ensures Valid(Tower(n)) && Nesting(Tower(n)) == n
  {
    TowerShape(n);
    hide Tower;
    if n > 1 {
      TowerNesting(n - 1);
      NestedOnce(Tower(n - 1));
      hide Valid, Nesting;
      assert Tower(n) == Document("", Array("", [Tower(n - 1)]), "");
    }
  }

  lemma {:induction false} TowerWithin(n: nat, limit: int)
    requires n >= 1 && limit >= n - 1
    ensures WithinDepth(Parse(Tower(n)), limit)
  {
    hide Tower, WithinDepth;
    TowerShape(n);
    if n > 1 {
      TowerWithin(n - 1, limit - 1);
      OnlyChild(Tower(n - 1), limit - 1);
      assert Tower(n) == Document("", Array("", [Tower(n - 1)]), "");
    } else {
      NoChildren(limit);
      assert Parse(Tower(n)) == Container([]);
    }
  }

  lemma TowerShape(n: nat)
    ensures Tower(n) == Document("", Array("", if n <= 1 then [] else [Tower(n - 1)]), "")
  {
  }

  lemma NoChildren(limit: int)
    requires 0 <= limit
    ensures WithinDepth(Container([]), limit)
  {
  }

  lemma OnlyChild(d: Document, limit: int)
    requires WithinDepth(Parse(d), limit)
    ensures WithinDepth(Parse(Document("", Array("", [d]), "")), limit + 1)
  {
  }

  /** The bound is strict: 129 empty arrays inside one another fail the scan and would pass the worklist. */
  lemma ScanIsStricter()
    ensures Valid(Tower(129)) && Scan(START, Print(Tower(129))).None? && WithinDepth(Parse(Tower(129)), MAX_DEPTH)
  {
    TowerNesting(129);
    TowerWithin(129, MAX_DEPTH);
    ScanMeasuresNesting(Tower(129));
  }
}
