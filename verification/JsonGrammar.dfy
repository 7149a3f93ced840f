/** JSON texts as RFC 8259 (sections 2 to 7) writes them: a syntax tree that keeps
    whitespace and escapes, and its printing. Characters are code points. */
module JsonGrammar {

  predicate IsWs(s: string) {
    forall i :: 0 <= i < |s| ==> s[i] in " \t\n\r"
  }

  predicate IsDigits(s: string) {
    forall i :: 0 <= i < |s| ==> '0' <= s[i] <= '9'
  }

  predicate IsHex(c: char) {
    '0' <= c <= '9' || 'a' <= c <= 'f' || 'A' <= c <= 'F'
  }

  /** One character of a string: as it stands, behind a backslash, or as \uXXXX. */
  datatype Piece = Plain(c: char) | Escaped(c: char) | Unicode(hex: string) {
    predicate Valid() {
      match this
      case Plain(c) => c != '"' && c != '\\' && c as int >= 0x20
      case Escaped(c) => c in "\"\\/bfnrt"
      case Unicode(hex) => |hex| == 4 && forall i :: 0 <= i < 4 ==> IsHex(hex[i])
    }

    function Print(): string {
      match this
      case Plain(c) => [c]
      case Escaped(c) => ['\\', c]
      case Unicode(hex) => "\\u" + hex
    }
  }

  function PrintPieces(ps: seq<Piece>): string {
    if ps == [] then "" else ps[0].Print() + PrintPieces(ps[1..])
  }

  function Quoted(ps: seq<Piece>): string {
    "\"" + PrintPieces(ps) + "\""
  }

  predicate ValidPieces(ps: seq<Piece>) {
    forall i :: 0 <= i < |ps| ==> ps[i].Valid()
  }

  /** `frac` and `exp` hold the optional parts with their "." and "e". */
  datatype Json =
    | Null
    | Bool(b: bool)
    | Number(minus: bool, whole: string, frac: string, exp: string)
    | Str(body: seq<Piece>)
    | Array(ws: string, elems: Elems)
    | Object(ws: string, members: Members)

  datatype Elems = NoElem | Elem(w0: string, v: Json, w1: string, rest: Elems)

  datatype Members =
    | NoMember
    | Member(w0: string, key: seq<Piece>, w1: string, w2: string, v: Json, w3: string, rest: Members)

  predicate ValidWhole(s: string) {
    s != [] && IsDigits(s) && (|s| > 1 ==> s[0] != '0')
  }

  predicate ValidFrac(s: string) {
    s == [] || (s[0] == '.' && |s| > 1 && IsDigits(s[1..]))
  }

  predicate ValidExp(s: string) {
    s == [] || (s[0] in "eE" && |s| > 1 &&
      (IsDigits(s[1..]) || (s[1] in "+-" && |s| > 2 && IsDigits(s[2..]))))
  }

  predicate Valid(j: Json) {
    match j
    case Null => true
    case Bool(_) => true
    case Number(_, whole, frac, exp) => ValidWhole(whole) && ValidFrac(frac) && ValidExp(exp)
    case Str(body) => ValidPieces(body)
    case Array(ws, elems) => IsWs(ws) && ValidElems(elems)
    case Object(ws, members) => IsWs(ws) && ValidMembers(members)
  }

  predicate ValidElems(e: Elems) {
    match e
    case NoElem => true
    case Elem(w0, v, w1, rest) => IsWs(w0) && Valid(v) && IsWs(w1) && ValidElems(rest)
  }

  predicate ValidMembers(m: Members) {
    match m
    case NoMember => true
    case Member(w0, key, w1, w2, v, w3, rest) =>
      IsWs(w0) && ValidPieces(key) && IsWs(w1) && IsWs(w2) && Valid(v) && IsWs(w3) && ValidMembers(rest)
  }

  function Print(j: Json): string
    decreases j
  {
    match j
    case Null => "null"
    case Bool(b) => if b then "true" else "false"
    case Number(minus, whole, frac, exp) => (if minus then "-" else "") + whole + frac + exp
    case Str(body) => Quoted(body)
    case Array(ws, elems) => "[" + ws + PrintElems(elems) + "]"
    case Object(ws, members) => "{" + Inside(ws, members) + "}"
  }

  function Inside(ws: string, members: Members): string
    decreases members, 1
  {
    ws + PrintMembers(members)
  }

  function PrintElems(e: Elems): string {
    match e
    case NoElem => ""
    case Elem(w0, v, w1, rest) => w0 + Print(v) + w1 + (if rest.NoElem? then "" else "," + PrintElems(rest))
  }

  function PrintMembers(m: Members): string
    decreases m, 0
  {
    match m
    case NoMember => ""
    case Member(w0, key, w1, w2, v, w3, rest) =>
      w0 + Quoted(key) + w1 + ":" + w2 + Print(v) + w3 + (if rest.NoMember? then "" else "," + PrintMembers(rest))
  }
}
