/** obfuscate/json.go: what redaction does to every scalar of a value, told by the path that leads to it. */
module JsonLeaves {
  import opened JsonText
  import opened JsonObfuscator

  /** A step down: into the item of an array at some position, or into the member of an object with some key. */
  datatype Way = Index(i: nat) | Key(i: nat, key: string)

  /** A scalar, or an array or object without anything in it. */
  datatype Leaf = Leaf(path: seq<Way>, text: string, scalar: bool)

  function Leaves(v: Value, path: seq<Way>): seq<Leaf>
    decreases v, 0
  {
    match v
    case Scalar(text) => [Leaf(path, text, true)]
    case EmptyArray(_) => [Leaf(path, "[]", false)]
    case Array(items) => ItemLeaves(items, path)
    case EmptyObject(_) => [Leaf(path, "{}", false)]
    case Object(members) => MemberLeaves(members, path)
  }

  function ItemCount(items: Items): nat {
    if items.NoItems? then 0 else ItemCount(items.front) + 1
  }

  function MemberCount(members: Members): nat {
    if members.NoMembers? then 0 else MemberCount(members.front) + 1
  }

  function ItemLeaves(items: Items, path: seq<Way>): seq<Leaf>
    decreases items, 1
  {
    if items.NoItems? then []
    else ItemLeaves(items.front, path) + Leaves(items.last.value, path + [Index(ItemCount(items.front))])
  }

  function MemberLeaves(members: Members, path: seq<Way>): seq<Leaf>
    decreases members, 1
  {
    if members.NoMembers? then []
    else
      MemberLeaves(members.front, path) +
      Leaves(members.last.item.value, path + [Key(MemberCount(members.front), members.last.key)])
  }

  /** Some key on the path is to be kept. */
  predicate UnderKept(path: seq<Way>, keepers: set<string>) {
    exists i :: 0 <= i < |path| && path[i].Key? && Trim(path[i].key) in keepers
  }

  /** A scalar that is not under a kept key becomes a question mark in quotes; nothing else changes. */
  predicate RedactedLeaf(l: Leaf, l': Leaf, keepers: set<string>) {
    l' == if l.scalar && !UnderKept(l.path, keepers) then Leaf(l.path, "\"?\"", true) else l
  }

  predicate RedactedLeaves(ls: seq<Leaf>, ls': seq<Leaf>, keepers: set<string>) {
    |ls'| == |ls| && forall i :: 0 <= i < |ls| ==> RedactedLeaf(ls[i], ls'[i], keepers)
  }

  lemma JoinLeaves(a: seq<Leaf>, a': seq<Leaf>, b: seq<Leaf>, b': seq<Leaf>, keepers: set<string>)
    requires RedactedLeaves(a, a', keepers) && RedactedLeaves(b, b', keepers)
    ensures RedactedLeaves(a + b, a' + b', keepers)
  {
    hide RedactedLeaf;
  }

  lemma UnderNext(path: seq<Way>, way: Way, keepers: set<string>)
    ensures UnderKept(path + [way], keepers) <==> UnderKept(path, keepers) || (way.Key? && Trim(way.key) in keepers)
  {
    hide Trim;
    var more := path + [way];
    if i :| 0 <= i < |path| && path[i].Key? && Trim(path[i].key) in keepers {
      assert more[i] == path[i];
    }
    if way.Key? && Trim(way.key) in keepers {
      assert more[|path|] == way;
    }
  }

  lemma NoPath(keepers: set<string>)
    ensures !UnderKept([], keepers)
  {
  }

  lemma {:induction false} RedactLeaves(v: Value, path: seq<Way>, keepers: set<string>)
    ensures RedactedLeaves(Leaves(v, path), Leaves(Redact(v, UnderKept(path, keepers), keepers), path), keepers)
    decreases v, 0
  {
    hide UnderKept;
    match v
    case Scalar(text) =>
    case EmptyArray(_) =>
    case Array(items) => RedactItemLeaves(items, path, keepers);
    case EmptyObject(_) =>
    case Object(members) => RedactMemberLeaves(members, path, keepers);
  }

  lemma {:induction false} RedactItemLeaves(items: Items, path: seq<Way>, keepers: set<string>)
    ensures var items' := RedactItems(items, UnderKept(path, keepers), keepers);
            && RedactedLeaves(ItemLeaves(items, path), ItemLeaves(items', path), keepers)
            && ItemCount(items') == ItemCount(items)
    decreases items, 1
  {
    if items.MoreItems? {
      hide Redact, Leaves, UnderKept, RedactedLeaves;
      var way := Index(ItemCount(items.front));
      UnderNext(path, way, keepers);
      RedactItemLeaves(items.front, path, keepers);
      RedactLeaves(items.last.value, path + [way], keepers);
      var items' := RedactItems(items, UnderKept(path, keepers), keepers);
      assert UnderKept(path + [way], keepers) == UnderKept(path, keepers);
      LastItem(items, UnderKept(path, keepers), keepers);
      JoinLeaves(ItemLeaves(items.front, path), ItemLeaves(items'.front, path), Leaves(items.last.value, path + [way]),
                 Leaves(items'.last.value, path + [way]), keepers);
    }
  }

  lemma LastItem(items: Items, keep: bool, keepers: set<string>)
    requires items.MoreItems?
    ensures var items' := RedactItems(items, keep, keepers);
            && items'.MoreItems? && items'.front == RedactItems(items.front, keep, keepers)
            && items'.last.value == Redact(items.last.value, keep, keepers)
  {
  }

  lemma LastMember(members: Members, keep: bool, keepers: set<string>)
    requires members.MoreMembers?
    ensures var members' := RedactMembers(members, keep, keepers);
            && members'.MoreMembers? && members'.front == RedactMembers(members.front, keep, keepers)
            && members'.last.key == members.last.key
            && members'.last.item.value == Redact(members.last.item.value, keep || Trim(members.last.key) in keepers, keepers)
  {
    hide Trim;
    var m, inner := members.last, keep || Trim(members.last.key) in keepers;
    assert RedactMembers(members, keep, keepers).last == RedactMember(m, keep, keepers);
    assert RedactMember(m, keep, keepers).item == RedactItem(m.item, inner, keepers);
  }

  lemma {:induction false} RedactMemberLeaves(members: Members, path: seq<Way>, keepers: set<string>)
    ensures var members' := RedactMembers(members, UnderKept(path, keepers), keepers);
            && RedactedLeaves(MemberLeaves(members, path), MemberLeaves(members', path), keepers)
            && MemberCount(members') == MemberCount(members)
    decreases members, 1
  {
    if members.MoreMembers? {
      hide Redact, Leaves, UnderKept, RedactedLeaves, Trim;
      var way := Key(MemberCount(members.front), members.last.key);
      UnderNext(path, way, keepers);
      RedactMemberLeaves(members.front, path, keepers);
      RedactLeaves(members.last.item.value, path + [way], keepers);
      var members' := RedactMembers(members, UnderKept(path, keepers), keepers);
      assert UnderKept(path + [way], keepers) == (UnderKept(path, keepers) || Trim(members.last.key) in keepers);
      LastMember(members, UnderKept(path, keepers), keepers);
      JoinLeaves(MemberLeaves(members.front, path), MemberLeaves(members'.front, path),
                 Leaves(members.last.item.value, path + [way]), Leaves(members'.last.item.value, path + [way]), keepers);
    }
  }

  /** Redacting a document leaves its structure and its keys as they are, and every scalar under a kept key; all other
      scalars are masked. */
  lemma DocumentLeaves(v: Value, keepers: set<string>)
    ensures RedactedLeaves(Leaves(v, []), Leaves(Redact(v, false, keepers), []), keepers)
  {
    NoPath(keepers);
    RedactLeaves(v, [], keepers);
  }

  // ---------------------------------------------------------------- whitespace

  /** No whitespace between the parts of the value. */
  predicate Compact(v: Value)
    decreases v, 0
  {
    match v
    case Scalar(_) => true
    case EmptyArray(gap) => gap == ""
    case Array(items) => CompactItems(items)
    case EmptyObject(gap) => gap == ""
    case Object(members) => CompactMembers(members)
  }

  predicate CompactItem(x: Item)
    decreases x, 1
  {
    x.pre == "" && x.post == "" && Compact(x.value)
  }

  predicate CompactItems(items: Items)
    decreases items, 2
  {
    items.MoreItems? ==> CompactItems(items.front) && CompactItem(items.last)
  }

  predicate CompactMembers(members: Members)
    decreases members, 2
  {
    members.MoreMembers? ==>
      && CompactMembers(members.front) && members.last.preKey == "" && members.last.postKey == ""
      && CompactItem(members.last.item)
  }

  lemma {:induction false} RedactIsCompact(v: Value, keep: bool, keepers: set<string>)
    ensures Compact(Redact(v, keep, keepers))
    decreases v, 0
  {
    match v
    case Scalar(_) =>
    case EmptyArray(_) =>
    case Array(items) => ItemsCompact(items, keep, keepers);
    case EmptyObject(_) =>
    case Object(members) => MembersCompact(members, keep, keepers);
  }

  lemma {:induction false} ItemsCompact(items: Items, keep: bool, keepers: set<string>)
    ensures CompactItems(RedactItems(items, keep, keepers))
    decreases items, 1
  {
    if items.MoreItems? {
      hide Redact, Compact;
      ItemsCompact(items.front, keep, keepers);
      RedactIsCompact(items.last.value, keep, keepers);
      assert CompactItem(RedactItem(items.last, keep, keepers));
    }
  }

  lemma {:induction false} MembersCompact(members: Members, keep: bool, keepers: set<string>)
    ensures CompactMembers(RedactMembers(members, keep, keepers))
    decreases members, 1
  {
    if members.MoreMembers? {
      hide Redact, Compact, Trim;
      var m, inner := members.last, keep || Trim(members.last.key) in keepers;
      MembersCompact(members.front, keep, keepers);
      RedactIsCompact(m.item.value, inner, keepers);
      assert CompactItem(RedactItem(m.item, inner, keepers));
      assert RedactMember(m, keep, keepers).item == RedactItem(m.item, inner, keepers);
    }
  }

  function DocCount(docs: Docs): nat {
    if docs.NoDocs? then 0 else DocCount(docs.front) + 1
  }

  function DocAt(docs: Docs, i: nat): (Value, string)
    requires i < DocCount(docs)
  {
    if i == DocCount(docs) - 1 then (docs.doc, docs.post) else DocAt(docs.front, i)
  }

  /** The documents of a stream are redacted one by one: all whitespace inside them goes, and what stands behind them
      stays. */
  lemma {:induction false} StreamRedacted(docs: Docs, keepers: set<string>, i: nat)
    requires i < DocCount(docs)
    ensures var docs' := RedactDocs(docs, keepers);
            && DocCount(docs') == DocCount(docs)
            && DocAt(docs', i).1 == DocAt(docs, i).1 && Compact(DocAt(docs', i).0)
            && RedactedLeaves(Leaves(DocAt(docs, i).0, []), Leaves(DocAt(docs', i).0, []), keepers)
  {
    hide Redact, Compact, Leaves, RedactedLeaves;
    if i < DocCount(docs) - 1 {
      StreamRedacted(docs.front, keepers, i);
    } else {
      SameCount(docs, keepers);
      RedactIsCompact(docs.doc, false, keepers);
      DocumentLeaves(docs.doc, keepers);
    }
  }

  lemma {:induction false} SameCount(docs: Docs, keepers: set<string>)
    ensures DocCount(RedactDocs(docs, keepers)) == DocCount(docs)
  {
    if docs.MoreDocs? {
      SameCount(docs.front, keepers);
    }
  }

  // ---------------------------------------------------------------- keys without their quotes

  predicate Quotes(t: string) {
    forall i :: 0 <= i < |t| ==> t[i] == '\"'
  }

  predicate NoQuoteAround(t: string) {
    t != "" ==> t[0] != '\"' && t[|t| - 1] != '\"'
  }

  lemma {:induction false} TrimLeftMeans(t: string) returns (a: string)
    ensures t == a + TrimLeft(t) && Quotes(a) && (TrimLeft(t) != "" ==> TrimLeft(t)[0] != '\"')
    decreases |t|
  {
    if t != "" && t[0] == '\"' {
      a := TrimLeftMeans(t[1..]);
      a := ['\"'] + a;
    } else {
      a := "";
    }
  }

  lemma {:induction false} TrimRightMeans(t: string) returns (b: string)
    ensures t == TrimRight(t) + b && Quotes(b) && (TrimRight(t) != "" ==> TrimRight(t)[|TrimRight(t)| - 1] != '\"')
    ensures TrimRight(t) != "" ==> TrimRight(t)[0] == t[0]
    decreases |t|
  {
    if t != "" && t[|t| - 1] == '\"' {
      b := TrimRightMeans(t[..|t| - 1]);
      assert t == t[..|t| - 1] + ['\"'];
      b := b + ['\"'];
    } else {
      b := "";
    }
  }

  /** A key loses all the quotes around it: what is left of `"k"` is k. */
  lemma TrimMeans(t: string, a: string, body: string, b: string)
    requires t == a + body + b && Quotes(a) && Quotes(b) && NoQuoteAround(body) && (body == "" ==> b == "")
    ensures Trim(t) == body
  {
    hide TrimLeft, TrimRight;
    var x := TrimLeftMeans(t);
    var core := TrimLeft(t);
    var y := TrimRightMeans(core);
    assert t == x + core && t == a + (body + b);
    if body == "" {
      assert t == a;
      AllQuotes(x, core, a);
    } else {
      QuotesEnd(x, core, a, body + b);
      QuotesEnd(a, body + b, x, core);
      assert core == t[|x|..] == body + b;
      SameCore(Trim(t), y, body, b);
    }
  }

  /** A run of quotes reaches no further than to the first other character. */
  lemma QuotesEnd(x: string, u: string, a: string, v: string)
    requires x + u == a + v && Quotes(x) && v != "" && v[0] != '\"'
    ensures |x| <= |a| && u != ""
  {
    assert (a + v)[|a|] == v[0];
    assert forall i :: 0 <= i < |x| ==> (x + u)[i] == x[i];
  }

  lemma AllQuotes(x: string, core: string, a: string)
    requires x + core == a && Quotes(a) && (core != "" ==> core[0] != '\"')
    ensures core == ""
  {
    FirstBehind(x, core);
  }

  lemma FirstBehind(x: string, core: string)
    ensures core != "" ==> (x + core)[|x|] == core[0]
  {
  }

  lemma SameCore(rest: string, y: string, body: string, b: string)
    requires rest + y == body + b && Quotes(y) && Quotes(b)
    requires (rest != "" ==> rest[|rest| - 1] != '\"') && (body != "" ==> body[|body| - 1] != '\"')
    ensures rest == body
  {
    NotLonger(rest, y, body, b);
    NotLonger(body, b, rest, y);
    assert rest == (rest + y)[..|rest|] && body == (body + b)[..|body|];
  }

  lemma NotLonger(rest: string, y: string, body: string, b: string)
    requires rest + y == body + b && Quotes(y) && (body != "" ==> body[|body| - 1] != '\"')
    ensures |body| <= |rest|
  {
    var t := rest + y;
    assert forall i :: |rest| <= i < |t| ==> t[i] == y[i - |rest|];
    assert body != "" ==> t[|body| - 1] == body[|body| - 1];
  }
}
