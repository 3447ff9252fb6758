/** Searches over a parsed HTML tree. `strings.ToLower` and `strings.TrimSpace` are parameters: the
    results hold for whatever these two functions do. */
module HtmlSearch {
  import opened Common

  datatype Kind = Element | Text | Other

  datatype Attr = Attr(key: string, val: string)

  /** `data` is the tag of an element and the text of a text node. */
  datatype Node = Node(kind: Kind, data: string, attrs: seq<Attr>, children: seq<Node>)

  type Path = seq<nat>

  // ---------------------------------------------------------------- attributes

  /** The value of the last attribute with this key, "" when there is none. */
  function LastValue(attrs: seq<Attr>, key: string): string {
    if attrs == [] then ""
    else if attrs[|attrs| - 1].key == key then attrs[|attrs| - 1].val
    else LastValue(attrs[..|attrs| - 1], key)
  }

  /** The loop over a tag's attributes: the last name and the last value win. */
  method ReadAttrs(attrs: seq<Attr>, nameKey: string, valueKey: string, lower: string -> string)
    returns (name: string, value: string)
    ensures name == if HasAttr(attrs, nameKey) then lower(LastValue(attrs, nameKey)) else ""
    ensures value == LastValue(attrs, valueKey)
  {
    name, value := "", "";
    ghost var named := false;
    for i := 0 to |attrs|
      invariant named <==> exists j | 0 <= j < i :: attrs[j].key == nameKey
      invariant name == if named then lower(LastValue(attrs[..i], nameKey)) else ""
      invariant value == LastValue(attrs[..i], valueKey)
    {
      assert attrs[..i + 1][..i] == attrs[..i];
      if attrs[i].key == nameKey {
        name := lower(attrs[i].val);
        named := true;
      }
      if attrs[i].key == valueKey {
        value := attrs[i].val;
      }
    }
    assert attrs[..|attrs|] == attrs;
  }

  predicate HasAttr(attrs: seq<Attr>, key: string) {
    exists i | 0 <= i < |attrs| :: attrs[i].key == key
  }

  /** The loop that looks for an attribute and stops at the first one. */
  method FindAttr(attrs: seq<Attr>, key: string) returns (found: bool)
    ensures found == HasAttr(attrs, key)
  {
    found := false;
    for i := 0 to |attrs|
      invariant found == HasAttr(attrs[..i], key)
    {
      if attrs[i].key == key {
        found := true;
        assert attrs[..i + 1][i].key == key;
        break;
      }
    }
    assert found ==> HasAttr(attrs, key);
  }

  // ---------------------------------------------------------------- what a node offers

  /** None: not a matching node. Some(v): a matching node, whose search ends with `v`. */
  type Candidate = Node -> Option<string>

  function TitleAt(trim: string -> string): Candidate {
    (n: Node) =>
      if n.kind == Element && n.data == "title" && n.children != [] then Some(trim(n.children[0].data)) else None
  }

  function Named(n: Node, nameKey: string, lower: string -> string): string {
    if HasAttr(n.attrs, nameKey) then lower(LastValue(n.attrs, nameKey)) else ""
  }

  /** `extractMetaContent` with key "name", `extractMetaProperty` with key "property". */
  function MetaAt(nameKey: string, name: string, lower: string -> string): Candidate {
    (n: Node) =>
      if n.kind == Element && n.data == "meta" && Named(n, nameKey, lower) == lower(name)
      then Some(LastValue(n.attrs, "content")) else None
  }

  /** The wanted `rel` itself is not lower-cased. */
  function LinkAt(rel: string, lower: string -> string): Candidate {
    (n: Node) =>
      if n.kind == Element && n.data == "link" && Named(n, "rel", lower) == rel
      then Some(LastValue(n.attrs, "href")) else None
  }

  // ---------------------------------------------------------------- searches

  function Search(n: Node, offer: Candidate): string
    decreases n
  {
    match offer(n)
    case Some(v) => v
    case None => SearchAll(n.children, offer)
  }

  function SearchAll(ns: seq<Node>, offer: Candidate): string
    decreases ns
  {
    if ns == [] then ""
    else
      var v := Search(ns[0], offer);
      if v != "" then v else SearchAll(ns[1..], offer)
  }

  function ExtractTitle(n: Node, trim: string -> string): string {
    Search(n, TitleAt(trim))
  }

  function ExtractMetaContent(n: Node, name: string, lower: string -> string): string {
    Search(n, MetaAt("name", name, lower))
  }

  function ExtractMetaProperty(n: Node, property: string, lower: string -> string): string {
    Search(n, MetaAt("property", property, lower))
  }

  function ExtractLinkHref(n: Node, rel: string, lower: string -> string): string {
    Search(n, LinkAt(rel, lower))
  }

  function ExtractText(n: Node, trim: string -> string): string
    decreases n
  {
    if n.kind == Text then trim(n.data) else trim(ExtractTexts(n.children, trim))
  }

  function ExtractTexts(ns: seq<Node>, trim: string -> string): string
    decreases ns
  {
    if ns == [] then "" else ExtractText(ns[0], trim) + ExtractTexts(ns[1..], trim)
  }

  function H1Of(n: Node, trim: string -> string): seq<string> {
    if n.kind == Element && n.data == "h1" && ExtractText(n, trim) != "" then [ExtractText(n, trim)] else []
  }

  function ExtractH1s(n: Node, trim: string -> string): seq<string>
    decreases n
  {
    H1Of(n, trim) + ExtractAllH1s(n.children, trim)
  }

  function ExtractAllH1s(ns: seq<Node>, trim: string -> string): seq<string>
    decreases ns
  {
    if ns == [] then [] else ExtractH1s(ns[0], trim) + ExtractAllH1s(ns[1..], trim)
  }

  predicate MissingAlt(n: Node) {
    n.kind == Element && n.data == "img" && !HasAttr(n.attrs, "alt")
  }

  function CountImagesMissingAlt(n: Node): nat
    decreases n
  {
    (if MissingAlt(n) then 1 else 0) + CountAllMissingAlt(n.children)
  }

  function CountAllMissingAlt(ns: seq<Node>): nat
    decreases ns
  {
    if ns == [] then 0 else CountImagesMissingAlt(ns[0]) + CountAllMissingAlt(ns[1..])
  }

  // ---------------------------------------------------------------- the document, position by position

  /** A position is the list of child numbers that leads to it from the root. */
  predicate Valid(n: Node, p: Path)
    decreases |p|
  {
    p == [] || (p[0] < |n.children| && Valid(n.children[p[0]], p[1..]))
  }

  function At(n: Node, p: Path): Node
    requires Valid(n, p)
    decreases |p|
  {
    if p == [] then n else At(n.children[p[0]], p[1..])
  }

  /** Document order: an ancestor before its descendants, an earlier child's subtree before a later one's. */
  predicate Before(p: Path, q: Path)
    decreases |p|
  {
    q != [] && (p == [] || p[0] < q[0] || (p[0] == q[0] && Before(p[1..], q[1..])))
  }

  /** The node at `p` matches and offers `v`, and none of its ancestors matches. */
  predicate Offers(n: Node, offer: Candidate, p: Path, v: string)
    decreases |p|
  {
    if p == [] then offer(n) == Some(v)
    else offer(n).None? && p[0] < |n.children| && Offers(n.children[p[0]], offer, p[1..], v)
  }

  /** `v` is offered at `p`, and everything offered before it is empty. */
  ghost predicate FirstAt(n: Node, offer: Candidate, p: Path, v: string) {
    Offers(n, offer, p, v) && forall q, w :: Offers(n, offer, q, w) && Before(q, p) ==> w == ""
  }

  ghost predicate AllEmpty(n: Node, offer: Candidate) {
    forall q, w :: Offers(n, offer, q, w) ==> w == ""
  }

  ghost predicate Right(n: Node, offer: Candidate, r: string) {
    (r == "" <==> AllEmpty(n, offer)) && (r != "" ==> exists p :: FirstAt(n, offer, p, r))
  }

  lemma {:induction false} SearchRight(n: Node, offer: Candidate)
    ensures Right(n, offer, Search(n, offer))
    decreases n, |n.children| + 1
  {
    if offer(n).Some? {
      assert FirstAt(n, offer, [], Search(n, offer));
    } else {
      var k := SearchAllRight(n, 0, offer);
      var r := Search(n, offer);
      assert n.children[0..] == n.children;
      if r != "" {
        var c := n.children[k];
        var p :| FirstAt(c, offer, p, r);
        assert ([k] + p)[1..] == p;
        assert FirstAt(n, offer, [k] + p, r);
      } else {
        forall q, w | Offers(n, offer, q, w) ensures w == "" {
          assert Offers(n.children[q[0]], offer, q[1..], w);
        }
      }
    }
  }

  /** Looking at the children from number `i` on: the first `k - i` offer nothing, and child `k` has it. */
  lemma {:induction false} SearchAllRight(n: Node, i: nat, offer: Candidate) returns (k: nat)
    requires i <= |n.children|
    ensures var r := SearchAll(n.children[i..], offer);
            && i <= k <= |n.children|
            && (forall j | i <= j < k :: AllEmpty(n.children[j], offer))
            && (r == "" ==> k == |n.children|)
            && (r != "" ==> k < |n.children| && exists p :: FirstAt(n.children[k], offer, p, r))
    decreases n, |n.children| - i
  {
    k := i;
    if i < |n.children| {
      var c := n.children[i];
      SearchRight(c, offer);
      assert n.children[i..][1..] == n.children[i + 1..];
      if Search(c, offer) == "" {
        k := SearchAllRight(n, i + 1, offer);
      }
    }
  }

  lemma {:induction false} OffersOrdered(n: Node, offer: Candidate, p: Path, v: string, q: Path, w: string)
    requires Offers(n, offer, p, v) && Offers(n, offer, q, w)
    ensures if p == q then v == w else Before(p, q) || Before(q, p)
    decreases |p|
  {
    if p != [] && q != [] && p[0] == q[0] {
      OffersOrdered(n.children[p[0]], offer, p[1..], v, q[1..], w);
      assert p == [p[0]] + p[1..] && q == [q[0]] + q[1..];
    }
  }

  /** The search returns exactly the first non-empty value offered in document order, where nothing
      below a matching node counts; and "" exactly when every offered value is empty. */
  lemma SearchFindsFirst(n: Node, offer: Candidate, p: Path, v: string)
    ensures v != "" && FirstAt(n, offer, p, v) ==> Search(n, offer) == v
    ensures Search(n, offer) != "" ==> exists q :: FirstAt(n, offer, q, Search(n, offer))
    ensures Search(n, offer) == "" <==> AllEmpty(n, offer)
  {
    SearchRight(n, offer);
    var r := Search(n, offer);
    if v != "" && FirstAt(n, offer, p, v) {
      var q :| FirstAt(n, offer, q, r);
      OffersOrdered(n, offer, p, v, q, r);
    }
  }

  /** So do the four extractors, each for its own kind of node. */
  lemma ExtractorsFindFirst(n: Node, name: string, rel: string, lower: string -> string, trim: string -> string)
    ensures Right(n, TitleAt(trim), ExtractTitle(n, trim))
    ensures Right(n, MetaAt("name", name, lower), ExtractMetaContent(n, name, lower))
    ensures Right(n, MetaAt("property", name, lower), ExtractMetaProperty(n, name, lower))
    ensures Right(n, LinkAt(rel, lower), ExtractLinkHref(n, rel, lower))
  {
    SearchRight(n, TitleAt(trim));
    SearchRight(n, MetaAt("name", name, lower));
    SearchRight(n, MetaAt("property", name, lower));
    SearchRight(n, LinkAt(rel, lower));
  }

  // ---------------------------------------------------------------- whole-document lists

  function Prefixed(i: nat, ps: seq<Path>): seq<Path> {
    seq(|ps|, k requires 0 <= k < |ps| => [i] + ps[k])
  }

  /** All positions of the tree in document order. */
  function Positions(n: Node): seq<Path>
    decreases n
  {
    [[]] + ChildPositions(n.children, 0)
  }

  function ChildPositions(ns: seq<Node>, i: nat): seq<Path>
    decreases ns
  {
    if ns == [] then [] else Prefixed(i, Positions(ns[0])) + ChildPositions(ns[1..], i + 1)
  }

  function Flatten(n: Node): seq<Node>
    decreases n
  {
    [n] + FlattenAll(n.children)
  }

  function FlattenAll(ns: seq<Node>): seq<Node>
    decreases ns
  {
    if ns == [] then [] else Flatten(ns[0]) + FlattenAll(ns[1..])
  }

  predicate Increasing(ps: seq<Path>) {
    forall i, j | 0 <= i < j < |ps| :: Before(ps[i], ps[j])
  }

  /** `ns` lists the nodes found at the positions `ps` of the tree. */
  predicate NodesAt(n: Node, ps: seq<Path>, ns: seq<Node>) {
    |ps| == |ns| && forall k | 0 <= k < |ps| :: Valid(n, ps[k]) && At(n, ps[k]) == ns[k]
  }

  lemma {:induction false} PositionsListed(n: Node)
    ensures NodesAt(n, Positions(n), Flatten(n)) && Increasing(Positions(n))
    decreases n, |n.children| + 1
  {
    assert n.children[0..] == n.children;
    ChildPositionsListed(n, 0);
    var rest := ChildPositions(n.children, 0);
    forall j | 0 < j < |Positions(n)| ensures Before([], Positions(n)[j]) {
      assert Positions(n)[j] == rest[j - 1];
    }
    forall i, j | 0 < i < j < |Positions(n)| ensures Before(Positions(n)[i], Positions(n)[j]) {
      assert Before(rest[i - 1], rest[j - 1]);
    }
  }

  lemma {:induction false} ChildPositionsListed(n: Node, i: nat)
    requires i <= |n.children|
    ensures var ps := ChildPositions(n.children[i..], i);
            && NodesAt(n, ps, FlattenAll(n.children[i..])) && Increasing(ps)
            && forall k | 0 <= k < |ps| :: ps[k] != [] && ps[k][0] >= i
    decreases n, |n.children| - i
  {
    if i < |n.children| {
      var c := n.children[i];
      PositionsListed(c);
      ChildPositionsListed(n, i + 1);
      assert n.children[i..][1..] == n.children[i + 1..];
      var own, rest := Prefixed(i, Positions(c)), ChildPositions(n.children[i + 1..], i + 1);
      assert ChildPositions(n.children[i..], i) == own + rest;
      forall k | 0 <= k < |own| ensures own[k][0] == i && own[k][1..] == Positions(c)[k] {
      }
      Joined(n, own, Flatten(c), rest, FlattenAll(n.children[i + 1..]));
    }
  }

  lemma Joined(n: Node, ps: seq<Path>, ns: seq<Node>, qs: seq<Path>, ms: seq<Node>)
    requires NodesAt(n, ps, ns) && NodesAt(n, qs, ms) && Increasing(ps) && Increasing(qs)
    requires forall i, j | 0 <= i < |ps| && 0 <= j < |qs| :: Before(ps[i], qs[j])
    ensures NodesAt(n, ps + qs, ns + ms) && Increasing(ps + qs)
  {
  }

  lemma {:induction false} EveryPosition(n: Node, p: Path)
    requires Valid(n, p)
    ensures p in Positions(n)
    decreases n, |n.children| + 1
  {
    if p == [] {
      assert Positions(n)[0] == [];
    } else {
      assert n.children[0..] == n.children;
      EveryChildPosition(n, 0, p);
    }
  }

  lemma {:induction false} EveryChildPosition(n: Node, i: nat, p: Path)
    requires Valid(n, p) && p != [] && i <= p[0]
    ensures p in ChildPositions(n.children[i..], i)
    decreases n, |n.children| - i
  {
    var c := n.children[i];
    assert n.children[i..][1..] == n.children[i + 1..];
    if i == p[0] {
      EveryPosition(c, p[1..]);
      var k :| 0 <= k < |Positions(c)| && Positions(c)[k] == p[1..];
      assert Prefixed(i, Positions(c))[k] == p;
    } else {
      EveryChildPosition(n, i + 1, p);
    }
  }

  /** The flattened tree holds each node once, in document order: its k-th node is the one at the k-th
      position, and every position of the tree is listed. */
  lemma FlattenIsDocumentOrder(n: Node)
    ensures NodesAt(n, Positions(n), Flatten(n)) && Increasing(Positions(n))
    ensures forall p :: Valid(n, p) <==> p in Positions(n)
  {
    PositionsListed(n);
    forall p ensures Valid(n, p) <==> p in Positions(n) {
      if Valid(n, p) {
        EveryPosition(n, p);
      }
    }
  }

  function H1Texts(ns: seq<Node>, trim: string -> string): seq<string> {
    if ns == [] then [] else H1Of(ns[0], trim) + H1Texts(ns[1..], trim)
  }

  function CountMissing(ns: seq<Node>): nat {
    if ns == [] then 0 else (if MissingAlt(ns[0]) then 1 else 0) + CountMissing(ns[1..])
  }

  lemma {:induction false} H1TextsJoin(a: seq<Node>, b: seq<Node>, trim: string -> string)
    ensures H1Texts(a + b, trim) == H1Texts(a, trim) + H1Texts(b, trim)
    ensures CountMissing(a + b) == CountMissing(a) + CountMissing(b)
    decreases |a|
  {
    if a == [] {
      assert a + b == b;
    } else {
      assert (a + b)[1..] == a[1..] + b;
      H1TextsJoin(a[1..], b, trim);
    }
  }

  /** `extractH1s` lists all non-empty h1 texts of the document in document order, and
      `countImagesMissingAlt` counts over the whole document, nested ones included. */
  lemma {:induction false} ListsAreWholeDocument(n: Node, trim: string -> string)
    ensures ExtractH1s(n, trim) == H1Texts(Flatten(n), trim)
    ensures CountImagesMissingAlt(n) == CountMissing(Flatten(n))
    decreases n
  {
    assert Flatten(n)[1..] == FlattenAll(n.children);
    AllListsAreWhole(n.children, trim);
  }

  lemma {:induction false} AllListsAreWhole(ns: seq<Node>, trim: string -> string)
    ensures ExtractAllH1s(ns, trim) == H1Texts(FlattenAll(ns), trim)
    ensures CountAllMissingAlt(ns) == CountMissing(FlattenAll(ns))
    decreases ns
  {
    if ns != [] {
      ListsAreWholeDocument(ns[0], trim);
      AllListsAreWhole(ns[1..], trim);
      H1TextsJoin(Flatten(ns[0]), FlattenAll(ns[1..]), trim);
    }
  }

  // ---------------------------------------------------------------- what the offers and lists stand for

  /** `v` is the value of the last attribute with this key, "" without one. */
  predicate Reads(attrs: seq<Attr>, key: string, v: string) {
    if HasAttr(attrs, key) then
      exists i | 0 <= i < |attrs| ::
        attrs[i] == Attr(key, v) && forall j | i < j < |attrs| :: attrs[j].key != key
    else v == ""
  }

  lemma {:induction false} LastValueReads(attrs: seq<Attr>, key: string, v: string)
    ensures Reads(attrs, key, v) <==> v == LastValue(attrs, key)
    decreases |attrs|
  {
    if attrs != [] {
      var n := |attrs| - 1;
      var init := attrs[..n];
      if attrs[n].key == key {
        assert attrs[n] == Attr(key, attrs[n].val);
      } else {
        LastValueReads(init, key, v);
        assert HasAttr(attrs, key) ==> exists i | 0 <= i < n :: attrs[i].key == key && init[i] == attrs[i];
        if HasAttr(init, key) && Reads(init, key, v) {
          var i :| 0 <= i < n && init[i] == Attr(key, v) && forall j | i < j < n :: init[j].key != key;
          assert attrs[i] == Attr(key, v);
          forall j | i < j < |attrs| ensures attrs[j].key != key {
            assert j < n ==> init[j] == attrs[j];
          }
        }
        if HasAttr(attrs, key) && Reads(attrs, key, v) {
          var i :| 0 <= i < |attrs| && attrs[i] == Attr(key, v) && forall j | i < j < |attrs| :: attrs[j].key != key;
          assert init[i] == Attr(key, v);
        }
      }
    }
  }

  /** The node is a tag of this kind, and the last attribute of the given name, lower-cased, is the wanted one. */
  predicate TagNamed(n: Node, tag: string, key: string, want: string, lower: string -> string) {
    && n.kind == Element && n.data == tag
    && if HasAttr(n.attrs, key) then exists x | x in Vals(n.attrs) :: Reads(n.attrs, key, x) && lower(x) == want
       else want == ""
  }

  function Vals(attrs: seq<Attr>): set<string> {
    set a | a in attrs :: a.val
  }

  lemma NamedIff(n: Node, key: string, want: string, lower: string -> string)
    ensures Named(n, key, lower) == want
        <==> if HasAttr(n.attrs, key) then exists x | x in Vals(n.attrs) :: Reads(n.attrs, key, x) && lower(x) == want
             else want == ""
  {
    var v := LastValue(n.attrs, key);
    forall x ensures Reads(n.attrs, key, x) <==> x == v {
      LastValueReads(n.attrs, key, x);
    }
    assert Reads(n.attrs, key, v);
    if HasAttr(n.attrs, key) {
      var i :| 0 <= i < |n.attrs| && n.attrs[i] == Attr(key, v)
               && forall j | i < j < |n.attrs| :: n.attrs[j].key != key;
      assert n.attrs[i] in n.attrs && v in Vals(n.attrs);
    }
  }

  /** What the extractors look for, attribute by attribute: a `meta` with the name (or property), case ignored, and
      its content; a `link` with exactly the lower-cased `rel`, and its address; a `title`
      and the text of its first child. */
  lemma OffersAre(n: Node, name: string, v: string, lower: string -> string, trim: string -> string)
    ensures MetaAt("name", name, lower)(n) == Some(v)
        <==> TagNamed(n, "meta", "name", lower(name), lower) && Reads(n.attrs, "content", v)
    ensures MetaAt("property", name, lower)(n) == Some(v)
        <==> TagNamed(n, "meta", "property", lower(name), lower) && Reads(n.attrs, "content", v)
    ensures LinkAt(name, lower)(n) == Some(v)
        <==> TagNamed(n, "link", "rel", name, lower) && Reads(n.attrs, "href", v)
    ensures TitleAt(trim)(n) == Some(v)
        <==> n.kind == Element && n.data == "title" && n.children != [] && v == trim(n.children[0].data)
  {
    hide Reads, LastValue, Named, Vals, HasAttr;
    NamedIff(n, "name", lower(name), lower);
    NamedIff(n, "property", lower(name), lower);
    NamedIff(n, "rel", name, lower);
    LastValueReads(n.attrs, "content", v);
    LastValueReads(n.attrs, "href", v);
  }

  /** An image without any `alt` attribute; one with an empty `alt` is not counted. */
  function WithoutAlt(): Node -> bool {
    (n: Node) => n.kind == Element && n.data == "img" && forall a | a in n.attrs :: a.key != "alt"
  }

  lemma MissingAltIs(n: Node)
    ensures MissingAlt(n) <==> WithoutAlt()(n)
  {
  }

  lemma {:induction false} CountJoin(a: seq<Node>, b: seq<Node>, p: Node -> bool)
    ensures CountIf(a + b, p) == CountIf(a, p) + CountIf(b, p)
    decreases |b|
  {
    if b == [] {
      assert a + b == a;
    } else {
      assert (a + b)[..|a + b| - 1] == a + b[..|b| - 1];
      CountJoin(a, b[..|b| - 1], p);
    }
  }

  /** The image count is the number of such images in the document. */
  lemma {:induction false} ImageCountIs(n: Node)
    ensures CountImagesMissingAlt(n) == CountIf(Flatten(n), WithoutAlt())
    decreases n
  {
    MissingAltIs(n);
    AllImageCountsAre(n.children);
    CountJoin([n], FlattenAll(n.children), WithoutAlt());
    assert [n][..0] == [];
  }

  lemma {:induction false} AllImageCountsAre(ns: seq<Node>)
    ensures CountAllMissingAlt(ns) == CountIf(FlattenAll(ns), WithoutAlt())
    decreases ns
  {
    if ns != [] {
      ImageCountIs(ns[0]);
      AllImageCountsAre(ns[1..]);
      CountJoin(Flatten(ns[0]), FlattenAll(ns[1..]), WithoutAlt());
    }
  }

  /** Text nodes have no children, as in a parsed document. */
  predicate TextsAreLeaves(ns: seq<Node>) {
    forall n | n in ns && n.kind == Text :: n.children == []
  }

  function Same(s: string): string {
    s
  }

  function TextOf(ns: seq<Node>): string {
    if ns == [] then "" else (if ns[0].kind == Text then ns[0].data else "") + TextOf(ns[1..])
  }

  lemma {:induction false} TextJoin(a: seq<Node>, b: seq<Node>)
    ensures TextOf(a + b) == TextOf(a) + TextOf(b)
    decreases |a|
  {
    if a == [] {
      assert a + b == b;
    } else {
      assert (a + b)[1..] == a[1..] + b;
      TextJoin(a[1..], b);
    }
  }

  /** But for trimming, the text of a node is that of all text nodes in it, in document order. */
  lemma {:induction false} TextInOrder(n: Node)
    requires TextsAreLeaves(Flatten(n))
    ensures ExtractText(n, Same) == TextOf(Flatten(n))
    decreases n
  {
    assert n in Flatten(n);
    forall m | m in FlattenAll(n.children) ensures m in Flatten(n) {}
    AllTextInOrder(n.children);
    TextJoin([n], FlattenAll(n.children));
  }

  lemma {:induction false} AllTextInOrder(ns: seq<Node>)
    requires TextsAreLeaves(FlattenAll(ns))
    ensures ExtractTexts(ns, Same) == TextOf(FlattenAll(ns))
    decreases ns
  {
    if ns != [] {
      var all := FlattenAll(ns);
      forall m | m in Flatten(ns[0]) ensures m in all {}
      forall m | m in FlattenAll(ns[1..]) ensures m in all {}
      TextInOrder(ns[0]);
      AllTextInOrder(ns[1..]);
      TextJoin(Flatten(ns[0]), FlattenAll(ns[1..]));
    }
  }

  /** A text is in the list exactly when it is not empty and that of some h1 of the document. */
  lemma {:induction false} H1sAre(ns: seq<Node>, trim: string -> string, v: string)
    ensures v in H1Texts(ns, trim)
        <==> v != "" && exists n | n in ns :: n.kind == Element && n.data == "h1" && ExtractText(n, trim) == v
    decreases |ns|
  {
    if ns != [] {
      H1sAre(ns[1..], trim, v);
      assert forall n :: n in ns <==> n == ns[0] || n in ns[1..];
    }
  }
}
