/** JSON texts without whitespace, as json.dumps writes them with compact separators, and a reader for
    them. */
module JsonText {
  import opened Options

  datatype Tree = JString(s: string) | JNumber(n: nat) | JBool(b: bool) | JArray(items: seq<Tree>) | JObject(fields: seq<Member>)
  datatype Member = Member(name: string, value: Tree)

  // ---------- Reading ----------

  /** What was read, and what is left. */
  datatype Reading<T> = Reading(value: T, rest: string)

  function HexValue(c: char): Option<nat> {
    if '0' <= c <= '9' then Some(c as int - '0' as int)
    else if 'a' <= c <= 'f' then Some(10 + c as int - 'a' as int)
    else if 'A' <= c <= 'F' then Some(10 + c as int - 'A' as int)
    else None
  }

  /** The character of an escape sequence after its backslash, and the length of that. */
  function ReadEscape(s: string): Option<(char, nat)> {
    if s == "" then None
    else match s[0]
      case '"' => Some(('"', 1))
      case '\\' => Some(('\\', 1))
      case '/' => Some(('/', 1))
      case 'n' => Some(('\n', 1))
      case 'r' => Some(('\r', 1))
      case 't' => Some(('\t', 1))
      case 'b' => Some((8 as char, 1))
      case 'f' => Some((12 as char, 1))
      case 'u' =>
        // Section 7 of RFC 8259: four hexadecimal digits; those above 0x7F are not needed here.
        if |s| >= 5 && s[1] == '0' && s[2] == '0' && HexValue(s[3]).Some? && HexValue(s[3]).value < 8 && HexValue(s[4]).Some?
        then Some(((16 * HexValue(s[3]).value + HexValue(s[4]).value % 16) as char, 5)) else None
      case _ => None
  }

  /** The characters up to the closing quote. */
  function ReadChars(s: string): (r: Option<Reading<string>>)
    ensures r.Some? ==> |r.value.rest| < |s|
  {
    if s == "" then None
    else if s[0] == '"' then Some(Reading("", s[1..]))
    else if s[0] == '\\' then
      var e := ReadEscape(s[1..]);
      if e.None? || e.value.1 >= |s| then None
      else
        var r := ReadChars(s[1 + e.value.1..]);
        if r.None? then None else Some(Reading([e.value.0] + r.value.value, r.value.rest))
    else
      var r := ReadChars(s[1..]);
      if r.None? then None else Some(Reading([s[0]] + r.value.value, r.value.rest))
  }

  function ReadDigits(s: string, n: nat): (r: Reading<nat>)
    ensures |r.rest| <= |s|
  {
    if s != "" && '0' <= s[0] <= '9' then ReadDigits(s[1..], 10 * n + (s[0] as int - '0' as int)) else Reading(n, s)
  }

  predicate Starts(s: string, word: string) {
    |word| <= |s| && s[..|word|] == word
  }

  function ReadValue(s: string): (r: Option<Reading<Tree>>)
    ensures r.Some? ==> |r.value.rest| < |s|
    decreases |s|, 0
  {
    if s == "" then None
    else if s[0] == '"' then
      var r := ReadChars(s[1..]);
      if r.None? then None else Some(Reading(JString(r.value.value), r.value.rest))
    else if '0' <= s[0] <= '9' then
      var r := ReadDigits(s[1..], s[0] as int - '0' as int);
      Some(Reading(JNumber(r.value), r.rest))
    else if Starts(s, "true") then Some(Reading(JBool(true), s[4..]))
    else if Starts(s, "false") then Some(Reading(JBool(false), s[5..]))
    else if Starts(s, "[]") then Some(Reading(JArray([]), s[2..]))
    else if s[0] == '[' then
      var r := ReadItems(s[1..]);
      if r.None? then None else Some(Reading(JArray(r.value.value), r.value.rest))
    else if Starts(s, "{}") then Some(Reading(JObject([]), s[2..]))
    else if s[0] == '{' then
      var r := ReadMembers(s[1..]);
      if r.None? then None else Some(Reading(JObject(r.value.value), r.value.rest))
    else None
  }

  /** One or more values, up to the closing bracket. */
  function ReadItems(s: string): (r: Option<Reading<seq<Tree>>>)
    ensures r.Some? ==> |r.value.rest| < |s|
    decreases |s|, 1
  {
    var first := ReadValue(s);
    if first.None? || first.value.rest == "" then None
    else if first.value.rest[0] == ']' then Some(Reading([first.value.value], first.value.rest[1..]))
    else if first.value.rest[0] == ',' then
      var r := ReadItems(first.value.rest[1..]);
      if r.None? then None else Some(Reading([first.value.value] + r.value.value, r.value.rest))
    else None
  }

  function ReadMember(s: string): (r: Option<Reading<Member>>)
    ensures r.Some? ==> |r.value.rest| < |s|
    decreases |s|, 1
  {
    if s == "" || s[0] != '"' then None
    else
      var name := ReadChars(s[1..]);
      if name.None? || name.value.rest == "" || name.value.rest[0] != ':' then None
      else
        var value := ReadValue(name.value.rest[1..]);
        if value.None? then None else Some(Reading(Member(name.value.value, value.value.value), value.value.rest))
  }

  function ReadMembers(s: string): (r: Option<Reading<seq<Member>>>)
    ensures r.Some? ==> |r.value.rest| < |s|
    decreases |s|, 2
  {
    var first := ReadMember(s);
    if first.None? || first.value.rest == "" then None
    else if first.value.rest[0] == '}' then Some(Reading([first.value.value], first.value.rest[1..]))
    else if first.value.rest[0] == ',' then
      var r := ReadMembers(first.value.rest[1..]);
      if r.None? then None else Some(Reading([first.value.value] + r.value.value, r.value.rest))
    else None
  }

  // ---------- Limits ----------

  /** _json_value: a value at this depth keeps to the limits on nesting, on the size of objects and
      arrays, and on strings. */
  predicate Within(t: Tree, depth: nat, maxDepth: nat, maxItems: nat, maxString: nat)
    decreases t
  {
    depth <= maxDepth &&
    match t
    case JString(s) => |s| <= maxString
    case JNumber(_) => true
    case JBool(_) => true
    case JArray(items) => |items| <= maxItems && forall i :: 0 <= i < |items| ==> Within(items[i], depth + 1, maxDepth, maxItems, maxString)
    case JObject(fields) =>
      |fields| <= maxItems &&
      forall i :: 0 <= i < |fields| ==> fields[i].name != "" && Within(fields[i].value, depth + 1, maxDepth, maxItems, maxString)
  }
}
