/** JSON texts in the grammar of RFC 8259, sections 2 to 7, every character of the text included. */
module Json {
  import opened Common

  datatype Char = Plain(c: char) | Short(c: char) | Unicode(digits: string)

  datatype Json =
    | Null
    | True
    | False
    | Number(text: string)
    | String(chars: seq<Char>)
    | Array(blank: string, items: Items)
    | Object(blank: string, members: Members)

  datatype Items = NoItems | Item(before: string, value: Json, after: string, rest: Items)

  datatype Members =
    | NoMembers
    | Member(before: string, key: seq<Char>, beforeColon: string, afterColon: string, value: Json, after: string,
             rest: Members)

  // ----- Well-formed texts -----

  predicate IsBlank(s: string) {
    forall i :: 0 <= i < |s| ==> s[i] in " \t\n\r"
  }

  /** Only what sets numbers apart from the rest matters, so NaN and Infinity, which Python reads, are allowed. */
  predicate IsNumber(s: string) {
    s != [] && forall i :: 0 <= i < |s| ==> s[i] in "0123456789+-.eE" || s[i] in "NaInfity"
  }

  predicate ValidChar(c: Char) {
    match c
    case Plain(x) => x >= ' ' && x != '"' && x != '\\'
    case Short(x) => x in "\"\\/bfnrt"
    case Unicode(d) =>
      |d| == 4 && forall i :: 0 <= i < 4 ==> '0' <= d[i] <= '9' || 'a' <= d[i] <= 'f' || 'A' <= d[i] <= 'F'
  }

  predicate ValidChars(cs: seq<Char>) {
    forall i :: 0 <= i < |cs| ==> ValidChar(cs[i])
  }

  predicate Valid(v: Json) {
    match v
    case Number(text) => IsNumber(text)
    case String(chars) => ValidChars(chars)
    case Array(blank, items) => IsBlank(blank) && ValidItems(items)
    case Object(blank, members) => IsBlank(blank) && ValidMembers(members)
    case _ => true
  }

  predicate ValidItems(items: Items) {
    items.Item? ==> IsBlank(items.before) && Valid(items.value) && IsBlank(items.after) && ValidItems(items.rest)
  }

  predicate ValidMembers(ms: Members) {
    ms.Member? ==>
      && IsBlank(ms.before) && ValidChars(ms.key) && IsBlank(ms.beforeColon) && IsBlank(ms.afterColon)
      && Valid(ms.value) && IsBlank(ms.after) && ValidMembers(ms.rest)
  }

  // ----- Printing -----

  function PrintChar(c: Char): string {
    match c
    case Plain(x) => [x]
    case Short(x) => ['\\', x]
    case Unicode(d) => "\\u" + d
  }

  function PrintChars(cs: seq<Char>): string {
    if cs == [] then "" else PrintChar(cs[0]) + PrintChars(cs[1..])
  }

  function Quoted(cs: seq<Char>): string {
    "\"" + PrintChars(cs) + "\""
  }

  function Print(v: Json): string {
    match v
    case Null => "null"
    case True => "true"
    case False => "false"
    case Number(text) => text
    case String(chars) => Quoted(chars)
    case Array(blank, items) => "[" + (blank + PrintItems(items)) + "]"
    case Object(blank, members) => "{" + (blank + PrintMembers(members)) + "}"
  }

  function PrintItems(items: Items): string {
    if items.NoItems? then ""
    else (items.before + Print(items.value) + items.after + Comma(items.rest.Item?)) + PrintItems(items.rest)
  }

  function PrintMembers(ms: Members): string {
    if ms.NoMembers? then ""
    else (ms.before + Quoted(ms.key) + ms.beforeColon + ":") +
         (ms.afterColon + Print(ms.value) + ms.after + Comma(ms.rest.Member?)) + PrintMembers(ms.rest)
  }

  function Comma(more: bool): string {
    if more then "," else ""
  }
}
