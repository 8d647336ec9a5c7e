/** JSON texts as trees: the grammar of RFC 8259, sections 2 to 7, with the whitespace kept, and the text
    each tree stands for. A stream is a non-empty sequence of documents in one input. */
module JsonText {

  // ---------------------------------------------------------------- characters

  /** Section 2: space, horizontal tab, line feed or carriage return. */
  predicate IsWhitespace(c: char) {
    c == ' ' || c == '\t' || c == '\n' || c == '\r'
  }

  /** Section 6. */
  predicate IsDecimal(c: char) {
    '0' <= c <= '9'
  }

  predicate IsHexDigit(c: char) {
    '0' <= c <= '9' || 'a' <= c <= 'f' || 'A' <= c <= 'F'
  }

  /** Section 7: what may stand behind a backslash, but for a u and four hexadecimal digits. */
  predicate IsEscaped(c: char) {
    c == '\"' || c == '\\' || c == '/' || c == 'b' || c == 'f' || c == 'n' || c == 'r' || c == 't'
  }

  // ---------------------------------------------------------------- scalars

  predicate Blank(w: string) {
    forall i :: 0 <= i < |w| ==> IsWhitespace(w[i])
  }

  predicate Digits(t: string) {
    forall i :: 0 <= i < |t| ==> IsDecimal(t[i])
  }

  /** The characters of a string literal between its quotes (section 7). */
  predicate Chars(b: string) {
    b == "" ||
    (if b[0] != '\\' then b[0] >= ' ' && b[0] != '\"' && Chars(b[1..])
     else if |b| >= 2 && IsEscaped(b[1]) then Chars(b[2..])
     else |b| >= 6 && b[1] == 'u' && IsHexDigit(b[2]) && IsHexDigit(b[3]) && IsHexDigit(b[4]) && IsHexDigit(b[5]) && Chars(b[6..]))
  }

  predicate IsString(t: string) {
    |t| >= 2 && t[0] == '\"' && t[|t| - 1] == '\"' && Chars(t[1..|t| - 1])
  }

  /** An optional minus, then 0 or a digit sequence without leading zero (section 6). */
  predicate IntText(t: string) {
    var u := if t != "" && t[0] == '-' then t[1..] else t;
    u == "0" || (u != "" && '1' <= u[0] <= '9' && Digits(u))
  }

  predicate FracText(f: string) {
    f == "" || (|f| >= 2 && f[0] == '.' && Digits(f[1..]))
  }

  predicate ExpText(e: string) {
    e == "" ||
    ((e[0] == 'e' || e[0] == 'E') &&
     var r := if |e| >= 2 && (e[1] == '+' || e[1] == '-') then e[2..] else e[1..];
     r != "" && Digits(r))
  }

  ghost predicate Mantissa(m: string) {
    exists a :: 0 <= a <= |m| && MantissaAt(m, a)
  }

  predicate MantissaAt(m: string, a: nat)
    requires a <= |m|
  {
    IntText(m[..a]) && FracText(m[a..])
  }

  predicate ExpAt(t: string, b: nat)
    requires b <= |t|
  {
    ExpText(t[b..])
  }

  /** number = [ minus ] int [ frac ] [ exp ] */
  ghost predicate IsNumber(t: string) {
    exists b :: 0 <= b <= |t| && ExpAt(t, b) && Mantissa(t[..b])
  }

  predicate IsWord(t: string) {
    t == "true" || t == "false" || t == "null"
  }

  ghost predicate IsScalar(t: string) {
    IsString(t) || IsNumber(t) || IsWord(t)
  }

  // ---------------------------------------------------------------- values

  datatype Value =
    | Scalar(text: string)
    | EmptyArray(gap: string)
    | Array(items: Items)
    | EmptyObject(gap: string)
    | Object(members: Members)

  /** A value with the whitespace before and after it. */
  datatype Item = Item(pre: string, value: Value, post: string)

  datatype Items = NoItems | MoreItems(front: Items, last: Item)

  datatype Member = Member(preKey: string, key: string, postKey: string, item: Item)

  datatype Members = NoMembers | MoreMembers(front: Members, last: Member)

  /** Documents, each followed by whitespace. */
  datatype Docs = NoDocs | MoreDocs(front: Docs, doc: Value, post: string)

  function Text(v: Value): string
    decreases v, 0
  {
    match v
    case Scalar(text) => text
    case EmptyArray(gap) => "[" + gap + "]"
    case Array(items) => "[" + ItemsText(items) + "]"
    case EmptyObject(gap) => "{" + gap + "}"
    case Object(members) => "{" + MembersText(members) + "}"
  }

  function ItemText(x: Item): string
    decreases x, 1
  {
    x.pre + Text(x.value) + x.post
  }

  function ItemsText(items: Items): string
    decreases items, 2
  {
    if items.NoItems? then "" else ItemsOpen(items.front) + ItemText(items.last)
  }

  /** The text before the next item: the items so far and, if there are any, a comma. */
  function ItemsOpen(items: Items): string
    decreases items, 3
  {
    if items.NoItems? then "" else ItemsText(items) + ","
  }

  function MemberText(m: Member): string
    decreases m, 1
  {
    m.preKey + m.key + m.postKey + ":" + ItemText(m.item)
  }

  function MembersText(members: Members): string
    decreases members, 2
  {
    if members.NoMembers? then "" else MembersOpen(members.front) + MemberText(members.last)
  }

  function MembersOpen(members: Members): string
    decreases members, 3
  {
    if members.NoMembers? then "" else MembersText(members) + ","
  }

  function DocsText(docs: Docs): string {
    if docs.NoDocs? then "" else DocsText(docs.front) + Text(docs.doc) + docs.post
  }

  // ---------------------------------------------------------------- well-formed values

  ghost predicate WellFormed(v: Value)
    decreases v, 0
  {
    match v
    case Scalar(text) => IsScalar(text)
    case EmptyArray(gap) => Blank(gap)
    case Array(items) => items.MoreItems? && ItemsOk(items)
    case EmptyObject(gap) => Blank(gap)
    case Object(members) => members.MoreMembers? && MembersOk(members)
  }

  ghost predicate ItemOk(x: Item)
    decreases x, 1
  {
    Blank(x.pre) && WellFormed(x.value) && Blank(x.post)
  }

  ghost predicate ItemsOk(items: Items)
    decreases items, 2
  {
    items.MoreItems? ==> ItemsOk(items.front) && ItemOk(items.last)
  }

  ghost predicate MemberOk(m: Member)
    decreases m, 1
  {
    Blank(m.preKey) && IsString(m.key) && Blank(m.postKey) && ItemOk(m.item)
  }

  ghost predicate MembersOk(members: Members)
    decreases members, 2
  {
    members.MoreMembers? ==> MembersOk(members.front) && MemberOk(members.last)
  }

  /** `next` may follow directly after `doc`: the scanner reads numbers greedily, so a number other than
      zero cannot be followed by a digit and still end there. */
  ghost predicate MayAbut(doc: Value, post: string, next: char) {
    post != "" || !doc.Scalar? || !IsNumber(doc.text) || doc.text == "0" || doc.text == "-0" || !IsDecimal(next)
  }

  ghost predicate DocsOk(docs: Docs) {
    docs.MoreDocs? ==>
      && DocsOk(docs.front) && WellFormed(docs.doc) && Blank(docs.post)
      && (docs.front.MoreDocs? && Text(docs.doc) != "" ==> MayAbut(docs.front.doc, docs.front.post, Text(docs.doc)[0]))
  }

  /** A whole input: leading whitespace and at least one document. */
  ghost predicate IsStream(lead: string, docs: Docs) {
    Blank(lead) && docs.MoreDocs? && DocsOk(docs)
  }

  // ---------------------------------------------------------------- facts about scalars

  lemma {:induction false} CharsAppend(a: string, b: string)
    requires Chars(a) && Chars(b)
    ensures Chars(a + b)
  {
    if a == "" {
      assert a + b == b;
    } else {
      var k := CharsHead(a);
      hide Chars, StringUnit;
      CharsAppend(a[k..], b);
      CharsCons(a[..k], a[k..] + b);
      assert a + b == a[..k] + (a[k..] + b);
    }
  }

  /** One character of a string, or one escape. */
  predicate StringUnit(u: string) {
    || (|u| == 1 && u[0] != '\\' && u[0] >= ' ' && u[0] != '\"')
    || (|u| == 2 && u[0] == '\\' && IsEscaped(u[1]))
    || (|u| == 6 && u[0] == '\\' && u[1] == 'u' && IsHexDigit(u[2]) && IsHexDigit(u[3]) && IsHexDigit(u[4]) && IsHexDigit(u[5]))
  }

  lemma CharsHead(a: string) returns (k: nat)
    requires Chars(a) && a != ""
    ensures 0 < k <= |a| && StringUnit(a[..k]) && Chars(a[k..])
  {
    hide IsEscaped, IsHexDigit;
    k := if a[0] != '\\' then 1 else if |a| >= 2 && IsEscaped(a[1]) then 2 else 6;
  }

  lemma CharsCons(u: string, b: string)
    requires StringUnit(u) && Chars(b)
    ensures Chars(u + b)
  {
    assert (u + b)[|u|..] == b && forall i :: 0 <= i < |u| ==> (u + b)[i] == u[i];
    if |u| == 6 {
      assert !IsEscaped('u');
    }
  }

  lemma NumberFirst(t: string)
    requires IsNumber(t)
    ensures t != "" && (t[0] == '-' || IsDecimal(t[0]))
  {
    var b :| 0 <= b <= |t| && ExpAt(t, b) && Mantissa(t[..b]);
    var a :| 0 <= a <= b && MantissaAt(t[..b], a);
    var i := t[..b][..a];
    assert i != "" && i[0] == t[0];
  }

  /** A document's text starts with the first byte of a value. */
  lemma TextFirst(v: Value)
    requires WellFormed(v)
    ensures Text(v) != ""
    ensures v.Scalar? && IsNumber(v.text) ==> Text(v)[0] == '-' || IsDecimal(Text(v)[0])
    ensures !v.Scalar? ==> Text(v)[0] == '{' || Text(v)[0] == '['
    ensures !IsWhitespace(Text(v)[0])
  {
    if v.Scalar? && IsNumber(v.text) {
      NumberFirst(v.text);
    }
  }
}
