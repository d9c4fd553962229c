/** JSON values and the compact text json.dumps writes for them with ensure_ascii off. */
module Json {
  import opened Text

  /** A dictionary is the sequence of its members in sorted key order. */
  datatype Value =
    | Null
    | Bool(flag: bool)
    | Num(number: int)
    | Str(text: string)
    | Arr(items: seq<Value>)
    | Obj(members: seq<Member>)

  datatype Member = Member(key: string, value: Value)

  /** The strings of a list as JSON values. */
  function Texts(items: seq<string>): (vs: seq<Value>)
    ensures |vs| == |items| && forall i :: 0 <= i < |items| ==> vs[i] == Str(items[i])
  {
    seq(|items|, i requires 0 <= i < |items| => Str(items[i]))
  }

  const HEX_CHARS := "0123456789abcdef"

  function EscapeChar(c: char): (s: string)
    ensures s != "" && s[0] != '"'
  {
    if c == '"' then "\\\""
    else if c == '\\' then "\\\\"
    else if c == '\n' then "\\n"
    else if c == '\r' then "\\r"
    else if c == '\t' then "\\t"
    else if c as int == 8 then "\\b"
    else if c as int == 12 then "\\f"
    else if c as int < 0x20 then
      ['\\', 'u', '0', '0', HEX_CHARS[c as int / 16], HEX_CHARS[c as int % 16]]
    else [c]
  }

  function Escape(s: string): string {
    if s == "" then "" else EscapeChar(s[0]) + Escape(s[1..])
  }

  function Quote(s: string): string {
    "\"" + Escape(s) + "\""
  }

  function Print(v: Value): string
    decreases v
  {
    match v
    case Null => "null"
    case Bool(f) => if f then "true" else "false"
    case Num(n) => DecimalInt(n)
    case Str(s) => Quote(s)
    case Arr(vs) => "[" + (if vs == [] then "]" else Print(vs[0]) + PrintRest(vs[1..]))
    case Obj(ms) => "{" + (if ms == [] then "}" else PrintMember(ms[0]) + PrintRestMembers(ms[1..]))
  }

  function PrintRest(vs: seq<Value>): string
    decreases vs
  {
    if vs == [] then "]" else "," + Print(vs[0]) + PrintRest(vs[1..])
  }

  function PrintMember(m: Member): string
    decreases m
  {
    Quote(m.key) + ":" + Print(m.value)
  }

  function PrintRestMembers(ms: seq<Member>): string
    decreases ms
  {
    if ms == [] then "}" else "," + PrintMember(ms[0]) + PrintRestMembers(ms[1..])
  }

  // ---- the text determines the value ----

  lemma EscapeCharPrefix(c: char, x: string, d: char, y: string)
    requires EscapeChar(c) + x == EscapeChar(d) + y
    ensures c == d && x == y
  {
    var e, f := EscapeChar(c), EscapeChar(d);
    EscapeCharLength(c);
    EscapeCharLength(d);
    assert forall i :: 0 <= i < |e| ==> (e + x)[i] == e[i];
    assert forall i :: 0 <= i < |f| ==> (f + y)[i] == f[i];
    assert e[0] == f[0];
    if e[0] == '\\' { assert e[1] == f[1]; }
    Split(e, x, f, y);
    EscapeCharInjective(c, d);
  }

  lemma EscapeCharLength(c: char)
    ensures var e := EscapeChar(c);
            if e[0] != '\\' then |e| == 1 else |e| >= 2 && |e| == if e[1] == 'u' then 6 else 2
  {
  }

  function Nibble(c: char): nat {
    if '0' <= c <= '9' then c as int - '0' as int
    else if 'a' <= c <= 'f' then c as int - 'a' as int + 10
    else 0
  }

  lemma EscapeCharInjective(c: char, d: char)
    requires EscapeChar(c) == EscapeChar(d)
    ensures c == d
  {
    if |EscapeChar(c)| == 6 {
      UnicodeEscape(c);
      UnicodeEscape(d);
    }
  }

  lemma UnicodeEscape(c: char)
    requires |EscapeChar(c)| == 6
    ensures c as int == 16 * Nibble(EscapeChar(c)[4]) + Nibble(EscapeChar(c)[5])
  {
  }

  /** Two texts that start with the same one-character mark agree after it. */
  lemma Step(c: char, u: string, d: char, v: string)
    requires [c] + u == [d] + v
    ensures c == d && u == v
  {
    assert ([c] + u)[0] == c && ([d] + v)[0] == d;
    Split([c], u, [d], v);
  }

  lemma {:induction false} EscapePrefix(a: string, x: string, b: string, y: string)
    requires Escape(a) + ("\"" + x) == Escape(b) + ("\"" + y)
    ensures a == b && x == y
  {
    EscapeHead(a, x);
    EscapeHead(b, y);
    if a == "" || b == "" {
      Step('"', x, '"', y);
    } else {
      EscapeCharPrefix(a[0], Escape(a[1..]) + ("\"" + x), b[0], Escape(b[1..]) + ("\"" + y));
      EscapePrefix(a[1..], x, b[1..], y);
      assert a == [a[0]] + a[1..] && b == [b[0]] + b[1..];
    }
  }

  lemma EscapeHead(a: string, x: string)
    ensures a == "" ==> Escape(a) + ("\"" + x) == "\"" + x
    ensures a != "" ==> Escape(a) + ("\"" + x) == EscapeChar(a[0]) + (Escape(a[1..]) + ("\"" + x))
    ensures (Escape(a) + ("\"" + x))[0] == '"' <==> a == ""
  {
    if a != "" { Assoc(EscapeChar(a[0]), Escape(a[1..]), "\"" + x); }
  }

  lemma QuotePrefix(a: string, x: string, b: string, y: string)
    requires Quote(a) + x == Quote(b) + y
    ensures a == b && x == y
  {
    QuoteSpread(a, x);
    QuoteSpread(b, y);
    Step('"', Escape(a) + ("\"" + x), '"', Escape(b) + ("\"" + y));
    EscapePrefix(a, x, b, y);
  }

  lemma QuoteSpread(a: string, x: string)
    ensures Quote(a) + x == "\"" + (Escape(a) + ("\"" + x))
  {
  }

  /** Which constructor printed the text shows in its first character. */
  function Tag(v: Value): nat {
    match v
    case Null => 0
    case Bool(true) => 1
    case Bool(false) => 2
    case Num(_) => 3
    case Str(_) => 4
    case Arr(_) => 5
    case Obj(_) => 6
  }

  function TagOfChar(c: char): nat {
    if c == 'n' then 0 else if c == 't' then 1 else if c == 'f' then 2
    else if c == '-' || IsDigit(c) then 3
    else if c == '"' then 4 else if c == '[' then 5 else if c == '{' then 6 else 7
  }

  lemma FirstChar(v: Value, x: string)
    ensures Print(v) != "" && Print(v) + x != "" && TagOfChar((Print(v) + x)[0]) == Tag(v)
  {
  }

  /** Printed values are a prefix code: what follows a value never changes how it is read. */
  lemma {:induction false} PrintPrefix(a: Value, x: string, b: Value, y: string)
    requires Print(a) + x == Print(b) + y
    requires EndsNumeral(x) && EndsNumeral(y)
    ensures a == b && x == y
    decreases a, 1
  {
    FirstChar(a, x);
    FirstChar(b, y);
    match a
    case Num(n) => DecimalIntPrefix(n, x, b.number, y);
    case Str(u) => QuotePrefix(u, x, b.text, y);
    case Arr(us) => ArrPrefix(us, x, b.items, y);
    case Obj(us) => ObjPrefix(us, x, b.members, y);
    case Null => Split(Print(a), x, Print(b), y);
    case Bool(f) => Split(Print(a), x, Print(b), y);
  }

  /** The text after the opening bracket. */
  function ArrBody(vs: seq<Value>, x: string): string {
    if vs == [] then "]" + x else Print(vs[0]) + (PrintRest(vs[1..]) + x)
  }

  lemma ArrSpread(vs: seq<Value>, x: string)
    ensures Print(Arr(vs)) + x == "[" + ArrBody(vs, x)
    ensures ArrBody(vs, x)[0] == ']' <==> vs == []
    ensures ArrBody(vs, x) != ""
  {
    if vs != [] {
      FirstChar(vs[0], PrintRest(vs[1..]) + x);
      Assoc(Print(vs[0]), PrintRest(vs[1..]), x);
      Assoc("[", Print(vs[0]) + PrintRest(vs[1..]), x);
    }
  }

  lemma {:induction false} ArrPrefix(us: seq<Value>, x: string, vs: seq<Value>, y: string)
    requires Print(Arr(us)) + x == Print(Arr(vs)) + y
    requires EndsNumeral(x) && EndsNumeral(y)
    ensures us == vs && x == y
    decreases us
  {
    ArrSpread(us, x);
    ArrSpread(vs, y);
    Step('[', ArrBody(us, x), '[', ArrBody(vs, y));
    if us == [] {
      Step(']', x, ']', y);
    } else {
      RestEnds(us[1..], x);
      RestEnds(vs[1..], y);
      PrintPrefix(us[0], PrintRest(us[1..]) + x, vs[0], PrintRest(vs[1..]) + y);
      RestPrefix(us[1..], x, vs[1..], y);
      assert us == [us[0]] + us[1..] && vs == [vs[0]] + vs[1..];
    }
  }

  lemma RestEnds(vs: seq<Value>, x: string)
    ensures PrintRest(vs) + x != "" && EndsNumeral(PrintRest(vs) + x)
    ensures (PrintRest(vs) + x)[0] == (if vs == [] then ']' else ',')
    ensures PrintRest(vs) + x ==
            if vs == [] then "]" + x else "," + (Print(vs[0]) + (PrintRest(vs[1..]) + x))
  {
    if vs != [] {
      Assoc("," + Print(vs[0]), PrintRest(vs[1..]), x);
      Assoc(",", Print(vs[0]), PrintRest(vs[1..]) + x);
    }
  }

  lemma {:induction false} RestPrefix(us: seq<Value>, x: string, vs: seq<Value>, y: string)
    requires PrintRest(us) + x == PrintRest(vs) + y
    requires EndsNumeral(x) && EndsNumeral(y)
    ensures us == vs && x == y
    decreases us
  {
    RestEnds(us, x);
    RestEnds(vs, y);
    if us == [] {
      Step(']', x, ']', y);
    } else {
      var p, q := PrintRest(us[1..]) + x, PrintRest(vs[1..]) + y;
      Step(',', Print(us[0]) + p, ',', Print(vs[0]) + q);
      RestEnds(us[1..], x);
      RestEnds(vs[1..], y);
      PrintPrefix(us[0], p, vs[0], q);
      RestPrefix(us[1..], x, vs[1..], y);
      assert us == [us[0]] + us[1..] && vs == [vs[0]] + vs[1..];
    }
  }

  lemma MemberSpread(m: Member, x: string)
    ensures PrintMember(m) + x == Quote(m.key) + (":" + (Print(m.value) + x))
    ensures PrintMember(m) + x != "" && (PrintMember(m) + x)[0] == '"'
  {
    Assoc(Quote(m.key) + ":", Print(m.value), x);
    Assoc(Quote(m.key), ":", Print(m.value) + x);
  }

  lemma {:induction false} MemberPrefix(m: Member, x: string, n: Member, y: string)
    requires PrintMember(m) + x == PrintMember(n) + y
    requires EndsNumeral(x) && EndsNumeral(y)
    ensures m == n && x == y
    decreases m
  {
    MemberSpread(m, x);
    MemberSpread(n, y);
    QuotePrefix(m.key, ":" + (Print(m.value) + x), n.key, ":" + (Print(n.value) + y));
    Step(':', Print(m.value) + x, ':', Print(n.value) + y);
    PrintPrefix(m.value, x, n.value, y);
  }

  function ObjBody(ms: seq<Member>, x: string): string {
    if ms == [] then "}" + x else PrintMember(ms[0]) + (PrintRestMembers(ms[1..]) + x)
  }

  lemma ObjSpread(ms: seq<Member>, x: string)
    ensures Print(Obj(ms)) + x == "{" + ObjBody(ms, x)
    ensures ObjBody(ms, x) != ""
    ensures ObjBody(ms, x)[0] == '}' <==> ms == []
  {
    if ms != [] {
      MemberSpread(ms[0], PrintRestMembers(ms[1..]) + x);
      Assoc(PrintMember(ms[0]), PrintRestMembers(ms[1..]), x);
      Assoc("{", PrintMember(ms[0]) + PrintRestMembers(ms[1..]), x);
    }
  }

  lemma {:induction false} ObjPrefix(us: seq<Member>, x: string, vs: seq<Member>, y: string)
    requires Print(Obj(us)) + x == Print(Obj(vs)) + y
    requires EndsNumeral(x) && EndsNumeral(y)
    ensures us == vs && x == y
    decreases us
  {
    ObjSpread(us, x);
    ObjSpread(vs, y);
    Step('{', ObjBody(us, x), '{', ObjBody(vs, y));
    if us == [] {
      Step('}', x, '}', y);
    } else {
      RestMembersEnd(us[1..], x);
      RestMembersEnd(vs[1..], y);
      MemberPrefix(us[0], PrintRestMembers(us[1..]) + x, vs[0], PrintRestMembers(vs[1..]) + y);
      RestMembersPrefix(us[1..], x, vs[1..], y);
      assert us == [us[0]] + us[1..] && vs == [vs[0]] + vs[1..];
    }
  }

  lemma RestMembersEnd(ms: seq<Member>, x: string)
    ensures PrintRestMembers(ms) + x != "" && EndsNumeral(PrintRestMembers(ms) + x)
    ensures (PrintRestMembers(ms) + x)[0] == (if ms == [] then '}' else ',')
    ensures PrintRestMembers(ms) + x ==
            if ms == [] then "}" + x else "," + (PrintMember(ms[0]) + (PrintRestMembers(ms[1..]) + x))
  {
    if ms != [] {
      Assoc("," + PrintMember(ms[0]), PrintRestMembers(ms[1..]), x);
      Assoc(",", PrintMember(ms[0]), PrintRestMembers(ms[1..]) + x);
    }
  }

  lemma {:induction false} RestMembersPrefix(us: seq<Member>, x: string, vs: seq<Member>, y: string)
    requires PrintRestMembers(us) + x == PrintRestMembers(vs) + y
    requires EndsNumeral(x) && EndsNumeral(y)
    ensures us == vs && x == y
    decreases us
  {
    RestMembersEnd(us, x);
    RestMembersEnd(vs, y);
    if us == [] {
      Step('}', x, '}', y);
    } else {
      var p, q := PrintRestMembers(us[1..]) + x, PrintRestMembers(vs[1..]) + y;
      Step(',', PrintMember(us[0]) + p, ',', PrintMember(vs[0]) + q);
      RestMembersEnd(us[1..], x);
      RestMembersEnd(vs[1..], y);
      MemberPrefix(us[0], p, vs[0], q);
      RestMembersPrefix(us[1..], x, vs[1..], y);
      assert us == [us[0]] + us[1..] && vs == [vs[0]] + vs[1..];
    }
  }

  /** Two values print the same only if they are the same. */
  lemma PrintInjective(a: Value, b: Value)
    requires Print(a) == Print(b)
    ensures a == b
  {
    assert Print(a) + "" == Print(b) + "";
    PrintPrefix(a, "", b, "");
  }
}
