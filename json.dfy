/** `JSON.stringify` of descriptors: the text that is hashed for the cache
    key and embedded in markers. Keys come in insertion order
    (`inputPath`, `operations`; `method`, `args`). */
module Json {

  import opened Strings
  import opened Descriptor

  /** No raw line feed or carriage return: `JSON.stringify` escapes them. */
  predicate SingleLine(s: string)
  {
    forall k :: 0 <= k < |s| ==> s[k] != '\n' && s[k] != '\r'
  }

  lemma SingleLineCat(x: string, y: string)
    requires SingleLine(x) && SingleLine(y)
    ensures SingleLine(x + y)
  {
    forall k | 0 <= k < |x + y| ensures (x + y)[k] != '\n' && (x + y)[k] != '\r' {
      if k < |x| {
        assert (x + y)[k] == x[k];
      } else {
        assert (x + y)[k] == y[k - |x|];
      }
    }
  }

  function HexDigit(d: nat): char
    requires d < 16
  {
    "0123456789abcdef"[d]
  }

  /** The JSON escape of one character of a string literal. */
  function EscapeChar(c: char): (r: string)
    ensures SingleLine(r)
  {
    if c == '"' then "\\\""
    else if c == '\\' then "\\\\"
    else if c as int == 0x08 then "\\b"
    else if c as int == 0x0C then "\\f"
    else if c == '\n' then "\\n"
    else if c == '\r' then "\\r"
    else if c == '\t' then "\\t"
    else if c as int < 0x20 then "\\u00" + [HexDigit(c as int / 16), HexDigit(c as int % 16)]
    else [c]
  }

  function Escape(s: string): (r: string)
    ensures SingleLine(r)
  {
    if s == [] then [] else Escape(s[..|s| - 1]) + EscapeChar(s[|s| - 1])
  }

  function Quote(s: string): (r: string)
    ensures SingleLine(r)
  {
    "\"" + Escape(s) + "\""
  }

  function StringifyArg(a: Arg): (r: string)
    ensures SingleLine(r)
    decreases a
  {
    match a
    case Str(s) => Quote(s)
    case Num(n) => IntToString(n)
    case Bool(b) => if b then "true" else "false"
    case Null => "null"
    case Obj(ms) => "{" + StringifyMembers(ms) + "}"
  }

  function StringifyMembers(ms: seq<Member>): (r: string)
    ensures SingleLine(r)
    decreases ms
  {
    if ms == [] then []
    else
      var m := ms[|ms| - 1];
      var key := Quote(m.key) + ":";
      SingleLineCat(Quote(m.key), ":");
      var item := key + StringifyArg(m.value);
      SingleLineCat(key, StringifyArg(m.value));
      if |ms| == 1 then item
      else
        var front := StringifyMembers(ms[..|ms| - 1]) + ",";
        SingleLineCat(StringifyMembers(ms[..|ms| - 1]), ",");
        SingleLineCat(front, item);
        front + item
  }

  function StringifyArgs(args: seq<Arg>): (r: string)
    ensures SingleLine(r)
  {
    if args == [] then []
    else
      var item := StringifyArg(args[|args| - 1]);
      if |args| == 1 then item else StringifyArgs(args[..|args| - 1]) + "," + item
  }

  function StringifyOperation(op: Operation): (r: string)
    ensures SingleLine(r)
  {
    "{\"method\":" + Quote(op.name) + ",\"args\":[" + StringifyArgs(op.args) + "]}"
  }

  function StringifyOperations(ops: seq<Operation>): (r: string)
    ensures SingleLine(r)
  {
    if ops == [] then []
    else
      var item := StringifyOperation(ops[|ops| - 1]);
      if |ops| == 1 then item else StringifyOperations(ops[..|ops| - 1]) + "," + item
  }

  /** `JSON.stringify(config)`. */
  function Stringify(c: Config): (r: string)
    ensures SingleLine(r)
  {
    "{\"inputPath\":" + Quote(c.inputPath) + ",\"operations\":[" + StringifyOperations(c.operations) + "]}"
  }
}
