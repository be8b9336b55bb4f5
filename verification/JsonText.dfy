/** The results about stored text assume of the JSON encoder that it keeps documents apart, and of the hash that it has
    no collisions. Here is a pair of both, so that those assumptions can be met. */
module JsonText {
  import opened Wrappers
  import opened Json

  // ----- texts in which no encoding is the beginning of another -----

  /** A leading character and what follows it can be told apart. */
  lemma TagUnique(c: char, d: char, u: string, v: string, x: string, y: string)
    requires ([c] + u) + x == ([d] + v) + y
    ensures c == d && u + x == v + y
  {
    var s, t := ([c] + u) + x, ([d] + v) + y;
    assert s[0] == c && t[0] == d;
    assert s[1..] == u + x && t[1..] == v + y;
  }

  lemma Regroup(u: string, v: string, x: string)
    ensures (u + v) + x == u + (v + x)
  {
  }

  function Unary(n: nat): string {
    if n == 0 then "0" else "1" + Unary(n - 1)
  }

  lemma {:induction false} UnaryUnique(m: nat, n: nat, x: string, y: string)
    requires Unary(m) + x == Unary(n) + y
    ensures m == n && x == y
  {
    assert (Unary(m) + x)[0] == (Unary(n) + y)[0];
    if m == 0 {
      assert (Unary(m) + x)[1..] == x && (Unary(n) + y)[1..] == y;
    } else {
      assert (Unary(m) + x)[1..] == Unary(m - 1) + x && (Unary(n) + y)[1..] == Unary(n - 1) + y;
      UnaryUnique(m - 1, n - 1, x, y);
    }
  }

  function SignOf(negative: bool): char {
    if negative then '-' else '+'
  }

  function IntText(n: int): string {
    [SignOf(n < 0)] + Unary(if n < 0 then -n else n)
  }

  lemma IntUnique(m: int, n: int, x: string, y: string)
    requires IntText(m) + x == IntText(n) + y
    ensures m == n && x == y
  {
    var p, q := if m < 0 then -m else m, if n < 0 then -n else n;
    TagUnique(SignOf(m < 0), SignOf(n < 0), Unary(p), Unary(q), x, y);
    UnaryUnique(p, q, x, y);
  }

  function StringText(s: string): string {
    Unary(|s|) + s
  }

  lemma StringUnique(s: string, t: string, x: string, y: string)
    requires StringText(s) + x == StringText(t) + y
    ensures s == t && x == y
  {
    assert StringText(s) + x == Unary(|s|) + (s + x) && StringText(t) + y == Unary(|t|) + (t + y);
    UnaryUnique(|s|, |t|, s + x, t + y);
    assert s == (s + x)[..|s|] && t == (t + y)[..|t|];
    assert x == (s + x)[|s|..] && y == (t + y)[|t|..];
  }

  function FloatTag(f: Float): char {
    match f
    case Finite(negative, _, _) => SignOf(negative)
    case Infinite(negative) => if negative then 'N' else 'P'
    case NotANumber => '?'
  }

  function Digits(f: Float): string {
    if f.Finite? then Unary(f.mantissa) + IntText(f.exponent) else ""
  }

  lemma DigitsUnique(f: Float, g: Float, x: string, y: string)
    requires f.Finite? && g.Finite? && Digits(f) + x == Digits(g) + y
    ensures f.mantissa == g.mantissa && f.exponent == g.exponent && x == y
  {
    PairUnique(f.mantissa, f.exponent, g.mantissa, g.exponent, x, y);
  }

  lemma PairUnique(m: nat, i: int, n: nat, j: int, x: string, y: string)
    requires (Unary(m) + IntText(i)) + x == (Unary(n) + IntText(j)) + y
    ensures m == n && i == j && x == y
  {
    Regroup(Unary(m), IntText(i), x);
    Regroup(Unary(n), IntText(j), y);
    UnaryUnique(m, n, IntText(i) + x, IntText(j) + y);
    IntUnique(i, j, x, y);
  }

  function FloatText(f: Float): string {
    [FloatTag(f)] + Digits(f)
  }

  lemma FloatUnique(f: Float, g: Float, x: string, y: string)
    requires FloatText(f) + x == FloatText(g) + y
    ensures f == g && x == y
  {
    TagUnique(FloatTag(f), FloatTag(g), Digits(f), Digits(g), x, y);
    if f.Finite? {
      DigitsUnique(f, g, x, y);
    } else {
      assert "" + x == x && "" + y == y;
    }
  }

  // ----- documents -----

  function Tag(j: Json): char {
    match j
    case JNull => 'z'
    case JBool(b) => if b then 't' else 'f'
    case JInt(_) => 'i'
    case JFloat(_) => 'd'
    case JStr(_) => 's'
    case JList(_) => 'l'
    case JObject(_) => 'o'
  }

  ghost function Written(j: Json): string
    decreases j, 2
  {
    [Tag(j)] + Content(j)
  }

  ghost function Content(j: Json): string
    decreases j, 1
  {
    match j
    case JNull => ""
    case JBool(_) => ""
    case JInt(n) => IntText(n)
    case JFloat(x) => FloatText(x)
    case JStr(s) => StringText(s)
    case JList(items) => Unary(|items|) + WrittenItems(j, 0)
    case JObject(fields) => Unary(|fields.Keys|) + WrittenFields(j, fields.Keys)
  }

  ghost function WrittenItems(j: Json, i: nat): string
    requires j.JList? && i <= |j.items|
    decreases j, 0, |j.items| - i
  {
    if i == |j.items| then "" else Written(j.items[i]) + WrittenItems(j, i + 1)
  }

  /** The fields under `keys`, in some order. */
  ghost function WrittenFields(j: Json, keys: set<string>): string
    requires j.JObject? && keys <= j.fields.Keys
    decreases j, 0, |keys|
  {
    if keys == {} then ""
    else
      var k :| k in keys;
      StringText(k) + (Written(j.fields[k]) + WrittenFields(j, keys - {k}))
  }

  lemma {:induction false} WrittenUnique(a: Json, b: Json, x: string, y: string)
    requires Written(a) + x == Written(b) + y
    ensures a == b && x == y
    decreases a, 3
  {
    TagUnique(Tag(a), Tag(b), Content(a), Content(b), x, y);
    ContentUnique(a, b, x, y);
  }

  lemma {:induction false} ContentUnique(a: Json, b: Json, x: string, y: string)
    requires Tag(a) == Tag(b) && Content(a) + x == Content(b) + y
    ensures a == b && x == y
    decreases a, 2
  {
    match a {
      case JNull => assert "" + x == x && "" + y == y;
      case JBool(_) => assert "" + x == x && "" + y == y;
      case JInt(n) => IntUnique(n, b.n, x, y);
      case JFloat(f) => FloatUnique(f, b.x, x, y);
      case JStr(s) => StringUnique(s, b.s, x, y);
      case JList(_) => ListUnique(a, b, x, y);
      case JObject(_) => ObjectUnique(a, b, x, y);
    }
  }

  lemma {:induction false} ListUnique(a: Json, b: Json, x: string, y: string)
    requires a.JList? && b.JList? && Content(a) + x == Content(b) + y
    ensures a == b && x == y
    decreases a, 1
  {
    var u, v := WrittenItems(a, 0) + x, WrittenItems(b, 0) + y;
    assert Content(a) + x == Unary(|a.items|) + u && Content(b) + y == Unary(|b.items|) + v;
    UnaryUnique(|a.items|, |b.items|, u, v);
    ItemsUnique(a, b, 0, x, y);
    assert a.items == a.items[0..] == b.items[0..] == b.items;
  }

  lemma {:induction false} ObjectUnique(a: Json, b: Json, x: string, y: string)
    requires a.JObject? && b.JObject? && Content(a) + x == Content(b) + y
    ensures a == b && x == y
    decreases a, 1
  {
    var keys, others := a.fields.Keys, b.fields.Keys;
    var u, v := WrittenFields(a, keys) + x, WrittenFields(b, others) + y;
    assert Content(a) + x == Unary(|keys|) + u && Content(b) + y == Unary(|others|) + v;
    UnaryUnique(|keys|, |others|, u, v);
    FieldsUnique(a, b, keys, others, x, y);
    assert a.fields == b.fields;
  }

  lemma {:induction false} ItemsUnique(a: Json, b: Json, i: nat, x: string, y: string)
    requires a.JList? && b.JList? && i <= |a.items| == |b.items|
    requires WrittenItems(a, i) + x == WrittenItems(b, i) + y
    ensures a.items[i..] == b.items[i..] && x == y
    decreases a, 0, |a.items| - i
  {
    if i < |a.items| {
      var u, v := WrittenItems(a, i + 1) + x, WrittenItems(b, i + 1) + y;
      assert WrittenItems(a, i) + x == Written(a.items[i]) + u && WrittenItems(b, i) + y == Written(b.items[i]) + v;
      WrittenUnique(a.items[i], b.items[i], u, v);
      ItemsUnique(a, b, i + 1, x, y);
      assert a.items[i..] == [a.items[i]] + a.items[i + 1..] && b.items[i..] == [b.items[i]] + b.items[i + 1..];
    } else {
      assert "" + x == x && "" + y == y;
    }
  }

  lemma {:induction false} FieldsUnique(a: Json, b: Json, keys: set<string>, others: set<string>, x: string, y: string)
    requires a.JObject? && b.JObject? && keys <= a.fields.Keys && others <= b.fields.Keys && |keys| == |others|
    requires WrittenFields(a, keys) + x == WrittenFields(b, others) + y
    ensures keys == others && x == y && forall k :: k in keys ==> a.fields[k] == b.fields[k]
    decreases a, 0, |keys|
  {
    if keys == {} {
      assert others == {};
      assert "" + x == x && "" + y == y;
    } else {
      var k, u := FirstField(a, keys, x);
      var l, v := FirstField(b, others, y);
      StringUnique(k, l, Written(a.fields[k]) + u, Written(b.fields[l]) + v);
      WrittenUnique(a.fields[k], b.fields[l], u, v);
      FieldsUnique(a, b, keys - {k}, others - {k}, x, y);
      assert keys == keys - {k} + {k} && others == others - {k} + {k};
    }
  }

  lemma FirstField(j: Json, keys: set<string>, x: string) returns (k: string, rest: string)
    requires j.JObject? && keys <= j.fields.Keys && keys != {}
    ensures k in keys && rest == WrittenFields(j, keys - {k}) + x
    ensures WrittenFields(j, keys) + x == StringText(k) + (Written(j.fields[k]) + rest)
  {
    k :| k in keys && WrittenFields(j, keys) == StringText(k) + (Written(j.fields[k]) + WrittenFields(j, keys - {k}));
    rest := WrittenFields(j, keys - {k}) + x;
    var first, more := Written(j.fields[k]), WrittenFields(j, keys - {k});
    assert StringText(k) + (first + more) + x == StringText(k) + (first + (more + x));
  }

  ghost function Read(s: string): Option<Json> {
    if exists j :: Written(j) == s then (var j :| Written(j) == s; Some(j)) else None
  }

  /** Text reads back as the document it was written from. */
  lemma ReadsBack(j: Json)
    ensures Read(Written(j)) == Some(j)
  {
    var k :| Written(k) == Written(j) && Read(Written(j)) == Some(k);
    assert Written(k) + "" == Written(k) && Written(j) + "" == Written(j);
    WrittenUnique(k, j, "", "");
  }

  // ----- a hash -----

  /** Text without NUL that spells `s`. */
  function Spelled(s: string): string {
    if s == "" then "." else (if s[0] == '\0' then "e0" else if s[0] == 'e' then "e1" else [s[0]]) + Spelled(s[1..])
  }

  lemma {:induction false} SpelledIsPlain(s: string)
    ensures Spelled(s) != "" && '\0' !in Spelled(s)
  {
    if s != "" {
      SpelledIsPlain(s[1..]);
    }
  }

  lemma {:induction false} SpelledUnique(s: string, t: string)
    requires Spelled(s) == Spelled(t)
    ensures s == t
  {
    var u, v := Spelled(s), Spelled(t);
    if s != "" && t != "" {
      assert u[0] == v[0] && (u[0] == 'e' ==> u[1] == v[1]);
      assert s[0] == t[0];
      var n := if s[0] == '\0' || s[0] == 'e' then 2 else 1;
      assert u[n..] == Spelled(s[1..]) && v[n..] == Spelled(t[1..]);
      SpelledUnique(s[1..], t[1..]);
      assert s == [s[0]] + s[1..] && t == [t[0]] + t[1..];
    } else {
      SpelledLength(s);
      SpelledLength(t);
    }
  }

  lemma SpelledLength(s: string)
    ensures if s == "" then |Spelled(s)| == 1 else |Spelled(s)| >= 2
  {
    if s != "" {
      SpelledIsPlain(s[1..]);
    }
  }
}
