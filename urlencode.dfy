/** The download link's query string: `urlencode` of the two parameters
    `knowledge_base_name` and `file_name`, each value escaped the way
    `quote_plus` does it (UTF-8 bytes as upper-case `%XX`, a space as `+`,
    letters, digits and `_.-~` kept as they are). */
module UrlEncoding {
  import opened Text

  /** Characters `quote_plus` never escapes. */
  predicate Unreserved(c: char)
  {
    ('A' <= c <= 'Z') || ('a' <= c <= 'z') || ('0' <= c <= '9') || c == '_' || c == '.' || c == '-' || c == '~'
  }

  /** Characters that can appear in an escaped value. */
  predicate EscapedChar(c: char)
  {
    Unreserved(c) || c == '+' || c == '%'
  }

  /** The UTF-8 encoding of one Unicode scalar value, as byte values. */
  function Utf8(c: char): (bytes: seq<nat>)
    ensures 1 <= |bytes| <= 4
    ensures forall i :: 0 <= i < |bytes| ==> bytes[i] < 256
  {
    var cp := c as int;
    if cp < 0x80 then [cp]
    else if cp < 0x800 then [0xC0 + cp / 0x40, 0x80 + cp % 0x40]
    else if cp < 0x1_0000 then [0xE0 + cp / 0x1000, 0x80 + (cp / 0x40) % 0x40, 0x80 + cp % 0x40]
    else [0xF0 + cp / 0x4_0000, 0x80 + (cp / 0x1000) % 0x40, 0x80 + (cp / 0x40) % 0x40, 0x80 + cp % 0x40]
  }

  /** An upper-case hexadecimal digit. */
  function HexDigit(d: nat): (c: char)
    requires d < 16
    ensures Unreserved(c)
  {
    if d < 10 then ('0' as int + d) as char else ('A' as int + d - 10) as char
  }

  /** `%XX` for each byte. */
  function PercentBytes(bytes: seq<nat>): (r: string)
    requires forall i :: 0 <= i < |bytes| ==> bytes[i] < 256
    ensures |r| == 3 * |bytes|
    ensures forall i :: 0 <= i < |r| ==> EscapedChar(r[i])
  {
    if |bytes| == 0 then ""
    else ['%', HexDigit(bytes[0] / 16), HexDigit(bytes[0] % 16)] + PercentBytes(bytes[1..])
  }

  /** How `quote_plus` writes one character. */
  function QuoteChar(c: char): string
  {
    if Unreserved(c) then [c]
    else if c == ' ' then "+"
    else PercentBytes(Utf8(c))
  }

  /** `quote_plus(s)`: the escaped value never contains the '&' and '='
      that delimit the query string. */
  function QuotePlus(s: string): (r: string)
    ensures forall i :: 0 <= i < |r| ==> EscapedChar(r[i])
    ensures |r| >= |s|
  {
    if |s| == 0 then "" else QuoteChar(s[0]) + QuotePlus(s[1..])
  }

  /** A value made only of unreserved characters goes through unchanged. */
  lemma {:induction false} QuotePlusUnreserved(s: string)
    requires forall i :: 0 <= i < |s| ==> Unreserved(s[i])
    ensures QuotePlus(s) == s
  {
    if |s| > 0 {
      QuotePlusUnreserved(s[1..]);
      assert [s[0]] + s[1..] == s;
    }
  }

  const KbNameKey: string := "knowledge_base_name"
  const FileNameKey: string := "file_name"

  /** `urlencode({"knowledge_base_name": kb, "file_name": filename})`. */
  function UrlEncode(kbName: string, fileName: string): string
  {
    KbNameKey + "=" + QuotePlus(kbName) + "&" + FileNameKey + "=" + QuotePlus(fileName)
  }

  /** A query string read back: split on '&', each parameter at its '='. */
  function ParseQuery(query: string): seq<(string, string)>
  {
    var params := Split(query, '&');
    seq(|params|, i requires 0 <= i < |params| => ParseParam(params[i]))
  }

  function ParseParam(param: string): (string, string)
  {
    var parts := Split(param, '=');
    (parts[0], Join(parts[1..], "="))
  }

  lemma NoDelimiters(v: string)
    requires forall i :: 0 <= i < |v| ==> EscapedChar(v[i])
    ensures '&' !in v && '=' !in v
  {
  }

  lemma {:induction false} ParseParamOf(key: string, value: string)
    requires '=' !in key && '=' !in value
    ensures ParseParam(key + "=" + value) == (key, value)
  {
    var parts := [key, value];
    assert Join(parts, "=") == key + "=" + value;
    SplitJoin(parts, '=');
    assert parts[1..] == [value];
  }

  /** Reading the encoded query back yields exactly the two parameters, in
      order, with the escaped knowledge-base name and file name as values. */
  lemma {:induction false} ParseUrlEncode(kbName: string, fileName: string)
    ensures ParseQuery(UrlEncode(kbName, fileName))
         == [(KbNameKey, QuotePlus(kbName)), (FileNameKey, QuotePlus(fileName))]
  {
    var v1, v2 := QuotePlus(kbName), QuotePlus(fileName);
    NoDelimiters(v1);
    NoDelimiters(v2);
    var p1, p2 := KbNameKey + "=" + v1, FileNameKey + "=" + v2;
    assert '&' !in p1 by { assert p1 == KbNameKey + ("=" + v1); }
    assert '&' !in p2 by { assert p2 == FileNameKey + ("=" + v2); }
    assert UrlEncode(kbName, fileName) == p1 + "&" + p2;
    assert Join([p1, p2], "&") == p1 + "&" + p2;
    SplitJoin([p1, p2], '&');
    ParseParamOf(KbNameKey, v1);
    ParseParamOf(FileNameKey, v2);
  }
}
