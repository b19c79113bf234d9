/** The configuration document embedded in the APK and its text form.
    The serialiser writes a compact JSON object (RFC 8259) with the fields in
    a fixed order and only the two mandatory string escapes; the parser reads
    back exactly that layout. Indentation, other key orders and the remaining
    JSON escapes are not modelled. */
module AppConfigCodec {
  import opened Common
  import opened Archive

  datatype AppConfig = AppConfig(
    cobradorToken: string,
    cobradorNombre: string,
    cobradorDni: string,
    supabaseUrl: string,
    supabaseKey: string,
    adminUrl: string,
    autoLogin: bool,
    version: string,
    generatedAt: string)

  // ---------------------------------------------------------------------
  // Strings

  /** The body of a JSON string: `"` and `\` are preceded by a backslash. */
  function Escape(s: string): (r: string)
    ensures |r| >= |s|
  {
    if s == [] then []
    else (if s[0] == '"' || s[0] == '\\' then ['\\', s[0]] else [s[0]]) + Escape(s[1..])
  }

  function Quote(s: string): string { "\"" + Escape(s) + "\"" }

  /** Reads a string body up to its closing quote; returns the unescaped text
      and what follows the quote. */
  function ReadBody(t: string): Option<(string, string)>
  {
    if t == [] then None
    else if t[0] == '"' then Some(([], t[1..]))
    else if t[0] == '\\' then
      if |t| >= 2 && (t[1] == '"' || t[1] == '\\') then
        match ReadBody(t[2..])
        case Some((s, rest)) => Some(([t[1]] + s, rest))
        case None => None
      else None
    else
      match ReadBody(t[1..])
      case Some((s, rest)) => Some(([t[0]] + s, rest))
      case None => None
  }

  function ReadString(t: string): Option<(string, string)> {
    if t != [] && t[0] == '"' then ReadBody(t[1..]) else None
  }

  lemma {:induction false} ReadBodyEscape(s: string, rest: string)
    ensures ReadBody(Escape(s) + "\"" + rest) == Some((s, rest))
  {
    if s == [] {
      assert Escape(s) + "\"" + rest == "\"" + rest;
    } else {
      var head := if s[0] == '"' || s[0] == '\\' then ['\\', s[0]] else [s[0]];
      assert Escape(s) + "\"" + rest == head + (Escape(s[1..]) + "\"" + rest);
      ReadBodyEscape(s[1..], rest);
      if s[0] == '"' || s[0] == '\\' {
        assert (head + (Escape(s[1..]) + "\"" + rest))[2..] == Escape(s[1..]) + "\"" + rest;
      } else {
        assert (head + (Escape(s[1..]) + "\"" + rest))[1..] == Escape(s[1..]) + "\"" + rest;
      }
      assert [s[0]] + s[1..] == s;
    }
  }

  /** Reading a quoted string gives back the string and the remaining text. */
  lemma ReadStringQuote(s: string, rest: string)
    ensures ReadString(Quote(s) + rest) == Some((s, rest))
  {
    assert Quote(s) + rest == "\"" + (Escape(s) + "\"" + rest);
    ReadBodyEscape(s, rest);
  }

  // ---------------------------------------------------------------------
  // The document

  /** `"key":` */
  function Key(k: string): string { "\"" + k + "\":" }

  // The text before each value: the separator and the key.
  const TokenKey := "{" + Key("cobrador_token")
  const NombreKey := "," + Key("cobrador_nombre")
  const DniKey := "," + Key("cobrador_dni")
  const UrlKey := "," + Key("supabase_url")
  const SupabaseKeyKey := "," + Key("supabase_key")
  const AdminKey := "," + Key("admin_url")
  const AutoLoginKey := "," + Key("auto_login")
  const VersionKey := "," + Key("version")
  const GeneratedKey := "," + Key("generated_at")

  function BoolText(b: bool): string { if b then "true" else "false" }

  /** A key with a string value, followed by the rest of the document. */
  function StrField(key: string, value: string, rest: string): string {
    key + Quote(value) + rest
  }

  /** String-valued members, one per key, in order, before `rest`. */
  function WriteFields(keys: seq<string>, values: seq<string>, rest: string): string
    requires |keys| == |values|
  {
    if keys == [] then rest
    else StrField(keys[0], values[0], WriteFields(keys[1..], values[1..], rest))
  }

  /** The members are written before `rest`, which ends the text. */
  lemma {:induction false} WriteFieldsEnds(keys: seq<string>, values: seq<string>, rest: string)
    requires |keys| == |values|
    ensures |WriteFields(keys, values, rest)| >= |rest|
    ensures WriteFields(keys, values, rest)[|WriteFields(keys, values, rest)| - |rest|..] == rest
    ensures keys != [] ==> keys[0] <= WriteFields(keys, values, rest)
  {
    if keys != [] {
      WriteFieldsEnds(keys[1..], values[1..], rest);
      var tail := WriteFields(keys[1..], values[1..], rest);
      assert WriteFields(keys, values, rest) == (keys[0] + Quote(values[0])) + tail;
    }
  }

  // The string members before and after `auto_login`.
  const LeadingKeys := [TokenKey, NombreKey, DniKey, UrlKey, SupabaseKeyKey, AdminKey]
  const TrailingKeys := [VersionKey, GeneratedKey]

  /** `JSON.stringify(config)` for the configuration document. */
  function Serialize(c: AppConfig): (r: string)
    ensures TokenKey <= r && r[|r| - 1] == '}'
  {
    WriteFieldsEnds(LeadingKeys,
                    [c.cobradorToken, c.cobradorNombre, c.cobradorDni, c.supabaseUrl, c.supabaseKey, c.adminUrl],
                    AutoLoginKey + BoolText(c.autoLogin)
                    + WriteFields(TrailingKeys, [c.version, c.generatedAt], "}"));
    WriteFieldsEnds(TrailingKeys, [c.version, c.generatedAt], "}");
    WriteFields(LeadingKeys,
                [c.cobradorToken, c.cobradorNombre, c.cobradorDni, c.supabaseUrl, c.supabaseKey, c.adminUrl],
                AutoLoginKey + BoolText(c.autoLogin)
                + WriteFields(TrailingKeys, [c.version, c.generatedAt], "}"))
  }

  /** The text after the literal `lit`, when `t` starts with it. */
  function Expect(lit: string, t: string): Option<string> {
    if lit <= t then Some(t[|lit|..]) else None
  }

  function ReadBool(t: string): Option<(bool, string)> {
    if "true" <= t then Some((true, t[4..]))
    else if "false" <= t then Some((false, t[5..]))
    else None
  }

  /** Reads `key` followed by a quoted string. */
  function Field(key: string, t: string): Option<(string, string)> {
    var t :- Expect(key, t);
    ReadString(t)
  }

  /** Reads one string member per key, in order. */
  function ReadFields(keys: seq<string>, t: string): (r: Option<(seq<string>, string)>)
    ensures r.Some? ==> |r.value.0| == |keys|
  {
    if keys == [] then Some(([], t))
    else
      var f :- Field(keys[0], t);
      var more :- ReadFields(keys[1..], f.1);
      Some(([f.0] + more.0, more.1))
  }

  /** `JSON.parse` of the configuration document; `None` where it would throw
      or where the text is not a document of this layout. */
  function Parse(t: string): (r: Option<AppConfig>)
    ensures r.Some? ==> TokenKey <= t
  {
    var leading :- ReadFields(LeadingKeys, t);
    var t1 :- Expect(AutoLoginKey, leading.1);
    var auto :- ReadBool(t1);
    var trailing :- ReadFields(TrailingKeys, auto.1);
    if trailing.1 == "}" then
      var v, w := leading.0, trailing.0;
      Some(AppConfig(v[0], v[1], v[2], v[3], v[4], v[5], auto.0, w[0], w[1]))
    else None
  }

  lemma FieldQuote(key: string, s: string, rest: string)
    ensures Field(key, StrField(key, s, rest)) == Some((s, rest))
  {
    assert StrField(key, s, rest)[|key|..] == Quote(s) + rest;
    ReadStringQuote(s, rest);
  }

  lemma {:induction false} ReadWriteFields(keys: seq<string>, values: seq<string>, rest: string)
    requires |keys| == |values|
    ensures ReadFields(keys, WriteFields(keys, values, rest)) == Some((values, rest))
  {
    if keys != [] {
      FieldQuote(keys[0], values[0], WriteFields(keys[1..], values[1..], rest));
      ReadWriteFields(keys[1..], values[1..], rest);
      assert [values[0]] + values[1..] == values;
    }
  }

  lemma ReadBoolText(b: bool, rest: string)
    ensures Expect(AutoLoginKey, AutoLoginKey + BoolText(b) + rest) == Some(BoolText(b) + rest)
    ensures ReadBool(BoolText(b) + rest) == Some((b, rest))
  {
    assert (AutoLoginKey + BoolText(b) + rest)[|AutoLoginKey|..] == BoolText(b) + rest;
    if b {
      assert "true" <= BoolText(b) + rest && (BoolText(b) + rest)[4..] == rest;
    } else {
      assert (BoolText(b) + rest)[0] == 'f';
      assert !("true" <= BoolText(b) + rest);
      assert "false" <= BoolText(b) + rest && (BoolText(b) + rest)[5..] == rest;
    }
  }

  /** Parsing the serialised document gives back the document. */
  lemma ParseSerialize(c: AppConfig)
    ensures Parse(Serialize(c)) == Some(c)
  {
    var trailing := WriteFields(TrailingKeys, [c.version, c.generatedAt], "}");
    var afterLeading := AutoLoginKey + BoolText(c.autoLogin) + trailing;
    ReadWriteFields(LeadingKeys,
                    [c.cobradorToken, c.cobradorNombre, c.cobradorDni, c.supabaseUrl, c.supabaseKey, c.adminUrl],
                    afterLeading);
    ReadBoolText(c.autoLogin, trailing);
    ReadWriteFields(TrailingKeys, [c.version, c.generatedAt], "}");
  }

  lemma {:induction false} EscapeReadBody(t: string)
    requires ReadBody(t).Some?
    ensures t == Escape(ReadBody(t).value.0) + "\"" + ReadBody(t).value.1
  {
    if t[0] == '"' {
      assert t == "\"" + t[1..];
    } else if t[0] == '\\' {
      EscapeReadBody(t[2..]);
      assert t == ['\\', t[1]] + t[2..];
    } else {
      EscapeReadBody(t[1..]);
      assert t == [t[0]] + t[1..];
    }
  }

  lemma FieldInverse(key: string, t: string)
    requires Field(key, t).Some?
    ensures t == StrField(key, Field(key, t).value.0, Field(key, t).value.1)
  {
    var u := t[|key|..];
    assert t == key + u;
    EscapeReadBody(u[1..]);
    assert u == "\"" + u[1..];
  }

  lemma {:induction false} WriteReadFields(keys: seq<string>, t: string)
    requires ReadFields(keys, t).Some?
    ensures WriteFields(keys, ReadFields(keys, t).value.0, ReadFields(keys, t).value.1) == t
  {
    if keys != [] {
      var f := Field(keys[0], t).value;
      FieldInverse(keys[0], t);
      WriteReadFields(keys[1..], f.1);
      var r := ReadFields(keys, t).value;
      assert r.0[1..] == ReadFields(keys[1..], f.1).value.0;
    }
  }

  /** What the `auto_login` member reads back from is its text. */
  lemma AutoLoginInverse(t: string)
    requires Expect(AutoLoginKey, t).Some?
    requires ReadBool(Expect(AutoLoginKey, t).value).Some?
    ensures t == AutoLoginKey + BoolText(ReadBool(Expect(AutoLoginKey, t).value).value.0)
                 + ReadBool(Expect(AutoLoginKey, t).value).value.1
  {
    var t1 := Expect(AutoLoginKey, t).value;
    assert t == AutoLoginKey + t1;
    if "true" <= t1 {
      assert t1 == "true" + t1[4..];
    } else {
      assert t1 == "false" + t1[5..];
    }
  }

  /** The parser accepts nothing but serialised documents: whatever parses is
      exactly the serialisation of the document it yields. */
  lemma SerializeParse(t: string)
    requires Parse(t).Some?
    ensures Serialize(Parse(t).value) == t
  {
    var leading := ReadFields(LeadingKeys, t).value;
    var auto := ReadBool(Expect(AutoLoginKey, leading.1).value).value;
    var trailing := ReadFields(TrailingKeys, auto.1).value;
    var c := Parse(t).value;
    WriteReadFields(LeadingKeys, t);
    WriteReadFields(TrailingKeys, auto.1);
    AutoLoginInverse(leading.1);
    assert leading.0 == [c.cobradorToken, c.cobradorNombre, c.cobradorDni, c.supabaseUrl, c.supabaseKey, c.adminUrl];
    assert trailing.0 == [c.version, c.generatedAt];
  }

  // ---------------------------------------------------------------------
  // Text and bytes

  function CharCode(c: char): int { c as int }

  /** `Buffer.from(text)`: one unit per code point. */
  function ToBytes(s: string): (b: Bytes)
    ensures |b| == |s|
  {
    seq(|s|, i requires 0 <= i < |s| => CharCode(s[i]))
  }

  /** `readAsText`: decodes units back into text; a unit that is no Unicode
      scalar value becomes the replacement character U+FFFD. */
  function FromBytes(b: Bytes): (s: string)
    ensures |s| == |b|
  {
    seq(|b|, i requires 0 <= i < |b| =>
      if 0 <= b[i] < 0xD800 || 0xE000 <= b[i] < 0x11_0000 then b[i] as char else '\U{FFFD}')
  }

  lemma FromToBytes(s: string)
    ensures FromBytes(ToBytes(s)) == s
  {
  }

  /** The bytes of the embedded document. */
  function Encode(c: AppConfig): Bytes { ToBytes(Serialize(c)) }

  /** Reads a document back from the bytes of an entry. */
  function Decode(b: Bytes): Option<AppConfig> { Parse(FromBytes(b)) }

  lemma DecodeEncode(c: AppConfig)
    ensures Decode(Encode(c)) == Some(c)
  {
    FromToBytes(Serialize(c));
    ParseSerialize(c);
  }
}
