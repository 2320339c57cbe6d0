/**
 The compact text of a JSON document made of strings, arrays and objects, as `serde_json` prints it, and what RFC 8259 says
 that text stands for.
 */
module Printing {
  import opened Wrappers
  import opened Json
  import opened Texts

  // ---------- printing ----------

  function HexDigit(n: nat): char
    requires n < 16
  {
    if n < 10 then '0' + n as char else 'a' + (n - 10) as char
  }

  /** The letter behind the backslash, for the characters that have a short escape. */
  function ShortCode(c: char): Option<char> {
    match c
    case '"' => Some('"')
    case '\\' => Some('\\')
    case '\n' => Some('n')
    case '\r' => Some('r')
    case '\t' => Some('t')
    case '\U{08}' => Some('b')
    case '\U{0c}' => Some('f')
    case _ => None
  }

  function EscapeChar(c: char): string {
    match ShortCode(c)
    case Some(code) => ['\\', code]
    case None => if c < ' ' then ['\\', 'u', '0', '0', HexDigit(c as int / 16), HexDigit(c as int % 16)] else [c]
  }

  function Escape(text: string): string {
    if text == "" then "" else Escape(text[..|text| - 1]) + EscapeChar(text[|text| - 1])
  }

  function Quote(text: string): string {
    "\"" + Escape(text) + "\""
  }

  /** Documents made of nothing but strings, arrays and objects. */
  predicate OfTexts(value: Value) {
    match value
    case String(_) => true
    case Array(items) => forall i :: 0 <= i < |items| ==> OfTexts(items[i])
    case Object(fields) => forall i :: 0 <= i < |fields| ==> OfTexts(fields[i].value)
    case _ => false
  }

  function Commas(pieces: seq<string>): string {
    if pieces == [] then ""
    else if |pieces| == 1 then pieces[0]
    else Commas(pieces[..|pieces| - 1]) + "," + pieces[|pieces| - 1]
  }

  function Print(value: Value): string
    requires OfTexts(value)
    decreases value
  {
    if value.String? then Quote(value.s)
    else if value.Array? then "[" + Commas(PrintItems(value.items)) + "]"
    else "{" + Commas(PrintFields(value.fields)) + "}"
  }

  function PrintItems(items: seq<Value>): seq<string>
    requires forall i :: 0 <= i < |items| ==> OfTexts(items[i])
    decreases items
  {
    if items == [] then [] else PrintItems(items[..|items| - 1]) + [Print(items[|items| - 1])]
  }

  function PrintFields(fields: seq<Field>): seq<string>
    requires forall i :: 0 <= i < |fields| ==> OfTexts(fields[i].value)
    decreases fields
  {
    if fields == [] then []
    else PrintFields(fields[..|fields| - 1]) + [PrintField(fields[|fields| - 1])]
  }

  function PrintField(field: Field): string
    requires OfTexts(field.value)
    decreases field
  {
    Quote(field.key) + ":" + Print(field.value)
  }

  // ---------- reading ----------

  function HexValue(c: char): Option<nat> {
    if '0' <= c <= '9' then Some((c - '0') as nat)
    else if 'a' <= c <= 'f' then Some((c - 'a') as nat + 10)
    else if 'A' <= c <= 'F' then Some((c - 'A') as nat + 10)
    else None
  }

  /** What four hexadecimal digits stand for, a half of a surrogate pair apart. */
  function FourHex(digits: string): Option<char>
    requires |digits| == 4
  {
    match (HexValue(digits[0]), HexValue(digits[1]), HexValue(digits[2]), HexValue(digits[3]))
    case (Some(a), Some(b), Some(c), Some(d)) =>
      var n := 4096 * a + 256 * b + 16 * c + d;
      if n < 0xD800 || 0xE000 <= n < 0x10000 then Some(n as char) else None
    case _ => None
  }

  function ShortEscape(c: char): Option<char> {
    match c
    case '"' => Some('"')
    case '\\' => Some('\\')
    case '/' => Some('/')
    case 'b' => Some('\U{08}')
    case 'f' => Some('\U{0c}')
    case 'n' => Some('\n')
    case 'r' => Some('\r')
    case 't' => Some('\t')
    case _ => None
  }

  function Prepend(text: string, rest: Option<string>): Option<string> {
    match rest case Some(r) => Some(text + r) case None => None
  }

  /** What stands between the quotes of a string (RFC 8259, section 7), if it is well-formed. */
  function Unescape(text: string): Option<string> {
    if text == "" then Some("")
    else if text[0] == '\\' then
      if |text| >= 6 && text[1] == 'u' then
        match FourHex(text[2..6]) case Some(c) => Prepend([c], Unescape(text[6..])) case None => None
      else if |text| >= 2 then
        match ShortEscape(text[1]) case Some(c) => Prepend([c], Unescape(text[2..])) case None => None
      else None
    else if text[0] == '"' || text[0] < ' ' then None
    else Prepend([text[0]], Unescape(text[1..]))
  }

  predicate SpellsString(text: string, s: string) {
    && |text| >= 2 && text[0] == '"' && text[|text| - 1] == '"'
    && Unescape(text[1..|text| - 1]) == Some(s)
  }

  /** Between brackets, the pieces stand in order, parted by commas. */
  ghost predicate Brackets(text: string, open: char, close: char, pieces: seq<string>) {
    && |text| >= 2 && text[0] == open && text[|text| - 1] == close
    && Joins(text[1..|text| - 1], pieces, ",")
  }

  ghost predicate SpellsField(piece: string, field: Field)
    decreases field
  {
    exists at :: 0 <= at < |piece| && piece[at] == ':' && SpellsString(piece[..at], field.key)
              && Spells(piece[at + 1..], field.value)
  }

  ghost predicate SpellsItems(pieces: seq<string>, items: seq<Value>)
    decreases items
  {
    && |pieces| == |items|
    && (items == [] || (SpellsItems(pieces[..|items| - 1], items[..|items| - 1])
                        && Spells(pieces[|items| - 1], items[|items| - 1])))
  }

  ghost predicate SpellsFields(pieces: seq<string>, fields: seq<Field>)
    decreases fields
  {
    && |pieces| == |fields|
    && (fields == [] || (SpellsFields(pieces[..|fields| - 1], fields[..|fields| - 1])
                         && SpellsField(pieces[|fields| - 1], fields[|fields| - 1])))
  }

  /** That a text stands for a document, by the grammar (RFC 8259, sections 4, 5 and 7) with no space between the tokens. */
  ghost predicate Spells(text: string, value: Value)
    decreases value
  {
    match value
    case String(s) => SpellsString(text, s)
    case Array(items) => exists pieces :: Brackets(text, '[', ']', pieces) && SpellsItems(pieces, items)
    case Object(fields) => exists pieces :: Brackets(text, '{', '}', pieces) && SpellsFields(pieces, fields)
    case _ => false
  }

  // ---------- strings read back ----------

  lemma HexReadsBack(n: nat)
    requires n < 16
    ensures HexValue(HexDigit(n)) == Some(n)
  {
  }

  lemma ShortReadsBack(code: char, c: char, rest: string)
    requires ShortEscape(code) == Some(c)
    ensures Unescape(['\\', code] + rest) == Prepend([c], Unescape(rest))
  {
    assert (['\\', code] + rest)[2..] == rest;
  }

  lemma LongReadsBack(n: nat, rest: string)
    requires n < 256
    ensures Unescape(['\\', 'u', '0', '0', HexDigit(n / 16), HexDigit(n % 16)] + rest)
         == Prepend([n as char], Unescape(rest))
  {
    var text := ['\\', 'u', '0', '0', HexDigit(n / 16), HexDigit(n % 16)] + rest;
    assert text[2..6] == ['0', '0', HexDigit(n / 16), HexDigit(n % 16)] && text[6..] == rest;
    HexReadsBack(n / 16);
    HexReadsBack(n % 16);
  }

  lemma PlainReadsBack(c: char, rest: string)
    requires c >= ' ' && c != '"' && c != '\\'
    ensures Unescape([c] + rest) == Prepend([c], Unescape(rest))
  {
    assert ([c] + rest)[1..] == rest;
  }

  lemma EscapeCharReadsBack(c: char, rest: string)
    ensures Unescape(EscapeChar(c) + rest) == Prepend([c], Unescape(rest))
  {
    if ShortCode(c).Some? {
      ShortReadsBack(ShortCode(c).value, c, rest);
    } else if c < ' ' {
      LongReadsBack(c as int, rest);
    } else {
      PlainReadsBack(c, rest);
    }
  }

  lemma PrependNothing(rest: Option<string>)
    ensures Prepend("", rest) == rest
  {
    if rest.Some? {
      assert "" + rest.value == rest.value;
    }
  }

  lemma PrependTwice(a: string, b: string, rest: Option<string>)
    ensures Prepend(a, Prepend(b, rest)) == Prepend(a + b, rest)
  {
    if rest.Some? {
      assert a + (b + rest.value) == a + b + rest.value;
    }
  }

  lemma {:induction false} EscapeReadsOn(text: string, rest: string)
    ensures Unescape(Escape(text) + rest) == Prepend(text, Unescape(rest))
  {
    if text == "" {
      assert "" + rest == rest;
      PrependNothing(Unescape(rest));
    } else {
      var front, last := text[..|text| - 1], text[|text| - 1];
      assert Escape(text) + rest == Escape(front) + (EscapeChar(last) + rest);
      EscapeReadsOn(front, EscapeChar(last) + rest);
      EscapeCharReadsBack(last, rest);
      PrependTwice(front, [last], Unescape(rest));
      assert front + [last] == text;
    }
  }

  /** Every string is read back from its quoted form. */
  lemma QuoteSpells(text: string)
    ensures SpellsString(Quote(text), text)
  {
    EscapeReadsOn(text, "");
    assert Escape(text) + "" == Escape(text) && text + "" == text;
    assert Quote(text)[1..|Quote(text)| - 1] == Escape(text);
  }

  // ---------- documents read back ----------

  lemma {:induction false} CommasJoin(pieces: seq<string>)
    ensures Joins(Commas(pieces), pieces, ",")
  {
    if pieces == [] {
      JoinsNothing(",");
    } else if |pieces| == 1 {
      JoinsOne(pieces[0], ",");
      assert pieces == [pieces[0]];
    } else {
      var front, last := pieces[..|pieces| - 1], pieces[|pieces| - 1];
      CommasJoin(front);
      JoinsOneMore(Commas(front), front, ",", last);
      assert pieces == front + [last];
    }
  }

  lemma BracketsHold(open: char, close: char, pieces: seq<string>)
    ensures Brackets([open] + Commas(pieces) + [close], open, close, pieces)
  {
    CommasJoin(pieces);
    var text := [open] + Commas(pieces) + [close];
    assert text[1..|text| - 1] == Commas(pieces);
  }

  /** The compact text of a document spells that document. */
  lemma {:induction false} PrintSpells(value: Value)
    requires OfTexts(value)
    ensures Spells(Print(value), value)
    decreases value
  {
    if value.String? {
      QuoteSpells(value.s);
    } else if value.Array? {
      ItemsSpell(value.items);
      BracketsHold('[', ']', PrintItems(value.items));
    } else {
      FieldsSpell(value.fields);
      BracketsHold('{', '}', PrintFields(value.fields));
    }
  }

  lemma {:induction false} ItemsSpell(items: seq<Value>)
    requires forall i :: 0 <= i < |items| ==> OfTexts(items[i])
    ensures SpellsItems(PrintItems(items), items)
    decreases items
  {
    if items != [] {
      ItemsSpell(items[..|items| - 1]);
      PrintSpells(items[|items| - 1]);
      assert PrintItems(items)[..|items| - 1] == PrintItems(items[..|items| - 1]);
    }
  }

  lemma {:induction false} FieldsSpell(fields: seq<Field>)
    requires forall i :: 0 <= i < |fields| ==> OfTexts(fields[i].value)
    ensures SpellsFields(PrintFields(fields), fields)
    decreases fields
  {
    if fields != [] {
      FieldsSpell(fields[..|fields| - 1]);
      FieldSpells(fields[|fields| - 1]);
      assert PrintFields(fields)[..|fields| - 1] == PrintFields(fields[..|fields| - 1]);
    }
  }

  lemma {:induction false} FieldSpells(field: Field)
    requires OfTexts(field.value)
    ensures SpellsField(PrintField(field), field)
    decreases field
  {
    PrintSpells(field.value);
    QuoteSpells(field.key);
    var piece, at := PrintField(field), |Quote(field.key)|;
    assert piece[..at] == Quote(field.key) && piece[at] == ':' && piece[at + 1..] == Print(field.value);
  }

  // ---------- printed on one line ----------

  lemma {:induction false} EscapeIsOneLine(text: string)
    ensures OneLineText(Escape(text))
  {
    if text != "" {
      EscapeIsOneLine(text[..|text| - 1]);
      OneLineConcat(Escape(text[..|text| - 1]), EscapeChar(text[|text| - 1]));
    }
  }

  lemma QuoteIsOneLine(text: string)
    ensures OneLineText(Quote(text))
  {
    EscapeIsOneLine(text);
    Sandwiched("\"", Escape(text), "\"");
  }

  lemma {:induction false} CommasAreOneLine(pieces: seq<string>)
    requires forall piece :: piece in pieces ==> OneLineText(piece)
    ensures OneLineText(Commas(pieces))
  {
    if |pieces| > 1 {
      CommasAreOneLine(pieces[..|pieces| - 1]);
      Sandwiched(Commas(pieces[..|pieces| - 1]), ",", pieces[|pieces| - 1]);
    }
  }

  /** No character of a document's compact text ends a line. */
  lemma {:induction false} PrintIsOneLine(value: Value)
    requires OfTexts(value)
    ensures OneLineText(Print(value))
    decreases value
  {
    if value.String? {
      QuoteIsOneLine(value.s);
    } else if value.Array? {
      ItemsAreOneLine(value.items);
      CommasAreOneLine(PrintItems(value.items));
      Sandwiched("[", Commas(PrintItems(value.items)), "]");
    } else {
      FieldsAreOneLine(value.fields);
      CommasAreOneLine(PrintFields(value.fields));
      Sandwiched("{", Commas(PrintFields(value.fields)), "}");
    }
  }

  lemma {:induction false} ItemsAreOneLine(items: seq<Value>)
    requires forall i :: 0 <= i < |items| ==> OfTexts(items[i])
    ensures forall piece :: piece in PrintItems(items) ==> OneLineText(piece)
    decreases items
  {
    if items != [] {
      ItemsAreOneLine(items[..|items| - 1]);
      PrintIsOneLine(items[|items| - 1]);
    }
  }

  lemma {:induction false} FieldsAreOneLine(fields: seq<Field>)
    requires forall i :: 0 <= i < |fields| ==> OfTexts(fields[i].value)
    ensures forall piece :: piece in PrintFields(fields) ==> OneLineText(piece)
    decreases fields
  {
    if fields != [] {
      var last := fields[|fields| - 1];
      FieldsAreOneLine(fields[..|fields| - 1]);
      PrintIsOneLine(last.value);
      QuoteIsOneLine(last.key);
      Sandwiched(Quote(last.key), ":", Print(last.value));
    }
  }
}
