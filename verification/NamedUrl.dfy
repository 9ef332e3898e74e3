/**
 Named URL identifiers (tools/scripts/pk_to_named_url.py): the identifying fields of a
 resource and of the resources it refers to, escaped and joined with dashes.  An
 identifier is useful only if it names one thing, so the printer is given a
 left-to-right decoder and the decoder is shown to be its inverse.
 Percent-encoding is that of section 2.1 of RFC 3986.
 */
module NamedUrl {

  // ----- Escaping one field -----

  /** The reserved characters in the order in which the script replaces them. */
  function Reserved(k: nat): (c: char)
    requires k < 9
    ensures Rank(c) == k
  {
    if k == 0 then ';' else if k == 1 then '/' else if k == 2 then '?' else if k == 3 then ':'
    else if k == 4 then '@' else if k == 5 then '=' else if k == 6 then '&' else if k == 7 then '['
    else ']'
  }

  /** The place of a character in that order, or 9. */
  function Rank(c: char): (k: nat) {
    if c == ';' then 0 else if c == '/' then 1 else if c == '?' then 2 else if c == ':' then 3
    else if c == '@' then 4 else if c == '=' then 5 else if c == '&' then 6 else if c == '[' then 7
    else if c == ']' then 8 else 9
  }

  /** The two hexadecimal digits of a reserved character. */
  function High(c: char): char {
    if c == '/' || c == '&' then '2' else if c == '@' then '4' else if c == '[' || c == ']' then '5' else '3'
  }

  function Low(c: char): char {
    if c == ';' || c == '[' then 'B' else if c == '/' || c == '?' then 'F' else if c == ':' then 'A'
    else if c == '@' then '0' else if c == '&' then '6' else 'D'
  }

  function Code(c: char): string {
    ['%', High(c), Low(c)]
  }

  /** `text.replace(c, sub)` for a one-character pattern. */
  function Replace(text: string, c: char, sub: string): string {
    if text == "" then "" else (if text[0] == c then sub else [text[0]]) + Replace(text[1..], c, sub)
  }

  /** A character after the first `k` passes of the escaping loop. */
  function Partial1(c: char, k: nat): string {
    if Rank(c) < 9 && Rank(c) < k then Code(c) else [c]
  }

  function Partial(text: string, k: nat): string {
    if text == "" then "" else Partial1(text[0], k) + Partial(text[1..], k)
  }

  /** The reference: every character is escaped on its own. */
  function Escape1(c: char): string {
    if c == '-' then "[-]" else Partial1(c, 9)
  }

  function Escape(text: string): string {
    if text == "" then "" else Escape1(text[0]) + Escape(text[1..])
  }

  const HEX: string := "0123456789ABCDEF"

  /** A dash is put in brackets, each of the nine reserved characters becomes the percent sign with
      the two hexadecimal digits of its number, and every other character stays. */
  lemma EscapeOne(c: char)
    ensures c != '-' && c !in ";/?:@=&[]" ==> Escape([c]) == [c]
    ensures c == '-' ==> Escape([c]) == "[-]"
    ensures c in ";/?:@=&[]" ==> c as int < 256 && Escape([c]) == ['%', HEX[c as int / 16], HEX[c as int % 16]]
  {
    assert [c][1..] == "";
    assert Escape([c]) == Escape1(c);
    ReservedAre(c);
    if c in ";/?:@=&[]" {
      HexOf(c);
    }
  }

  lemma ReservedAre(c: char)
    ensures c in ";/?:@=&[]" <==> Rank(c) < 9
  {
    var all := ";/?:@=&[]";
    assert |all| == 9;
    if c in all {
      var i :| 0 <= i < 9 && all[i] == c;
    }
    if Rank(c) < 9 {
      assert all[Rank(c)] == c;
    }
  }

  lemma HexOf(c: char)
    requires Rank(c) < 9
    ensures c as int < 256 && High(c) == HEX[c as int / 16] && Low(c) == HEX[c as int % 16]
  {
    assert |HEX| == 16;
  }

  /** Text by text. */
  lemma {:induction false} EscapeConcat(a: string, b: string)
    ensures Escape(a + b) == Escape(a) + Escape(b)
  {
    if a == "" {
      assert a + b == b;
    } else {
      assert (a + b)[1..] == a[1..] + b;
      EscapeConcat(a[1..], b);
    }
  }

  lemma {:induction false} ReplaceConcat(a: string, b: string, c: char, sub: string)
    ensures Replace(a + b, c, sub) == Replace(a, c, sub) + Replace(b, c, sub)
  {
    if a == "" {
      assert a + b == b;
    } else {
      assert (a + b)[1..] == a[1..] + b;
      ReplaceConcat(a[1..], b, c, sub);
    }
  }

  lemma {:induction false} ReplaceAbsent(a: string, c: char, sub: string)
    requires c !in a
    ensures Replace(a, c, sub) == a
  {
    if a != "" {
      ReplaceAbsent(a[1..], c, sub);
    }
  }

  /** Pass `k` turns the text after `k` passes into the text after `k + 1`: no pass
      touches what an earlier one wrote. */
  lemma {:induction false} PassExtends(text: string, k: nat)
    requires k < 9
    ensures Replace(Partial(text, k), Reserved(k), Code(Reserved(k))) == Partial(text, k + 1)
  {
    if text != "" {
      var c := text[0];
      ReplaceConcat(Partial1(c, k), Partial(text[1..], k), Reserved(k), Code(Reserved(k)));
      PassExtends(text[1..], k);
      if Rank(c) < k {
        ReplaceAbsent(Partial1(c, k), Reserved(k), Code(Reserved(k)));
      } else {
        assert Replace([c], Reserved(k), Code(Reserved(k))) == Partial1(c, k + 1);
      }
    }
  }

  lemma {:induction false} PartialZero(text: string)
    ensures Partial(text, 0) == text
  {
    if text != "" {
      PartialZero(text[1..]);
    }
  }

  lemma {:induction false} DashPass(text: string)
    ensures Replace(Partial(text, 9), '-', "[-]") == Escape(text)
  {
    if text != "" {
      hide Replace, Partial1, Escape1;
      var c := text[0];
      ReplaceConcat(Partial1(c, 9), Partial(text[1..], 9), '-', "[-]");
      DashPass(text[1..]);
      DashPass1(c);
    }
  }

  lemma DashPass1(c: char)
    ensures Replace(Partial1(c, 9), '-', "[-]") == Escape1(c)
  {
    if c == '-' {
      assert Replace("-", '-', "[-]") == "[-]";
    } else {
      ReplaceAbsent(Partial1(c, 9), '-', "[-]");
    }
  }

  /** The escaping loop: ten passes of `replace` over the whole text. */
  method EncodeUri(text: string) returns (encoded: string)
    ensures encoded == Escape(text)
  {
    encoded := text;
    PartialZero(text);
    for k := 0 to 9
      invariant encoded == Partial(text, k)
    {
      PassExtends(text, k);
      if Reserved(k) in encoded {
        encoded := Replace(encoded, Reserved(k), Code(Reserved(k)));
      } else {
        ReplaceAbsent(encoded, Reserved(k), Code(Reserved(k)));
      }
    }
    DashPass(text);
    encoded := Replace(encoded, '-', "[-]");
  }

  // ----- Unescaping one field -----

  /** The reserved character that `%ab` stands for, or '%' if it is none of the nine. */
  function CodeChar(a: char, b: char): char {
    if a == '2' then if b == 'F' then '/' else if b == '6' then '&' else '%'
    else if a == '3' then
      if b == 'B' then ';' else if b == 'F' then '?' else if b == 'A' then ':' else if b == 'D' then '=' else '%'
    else if a == '4' then if b == '0' then '@' else '%'
    else if a == '5' then if b == 'B' then '[' else if b == 'D' then ']' else '%'
    else '%'
  }

  predicate StartsWithCode(text: string) {
    |text| >= 3 && text[0] == '%' && CodeChar(text[1], text[2]) != '%'
  }

  predicate StartsWithDash(text: string) {
    |text| >= 3 && text[0] == '[' && text[1] == '-' && text[2] == ']'
  }

  function Unescape(text: string): string {
    if text == "" then ""
    else if StartsWithDash(text) then "-" + Unescape(text[3..])
    else if StartsWithCode(text) then [CodeChar(text[1], text[2])] + Unescape(text[3..])
    else [text[0]] + Unescape(text[1..])
  }

  /** Whether a field already contains one of the nine codes. */
  predicate ContainsCode(text: string) {
    text != "" && (StartsWithCode(text) || ContainsCode(text[1..]))
  }

  lemma CodeDigits(a: char, b: char)
    requires CodeChar(a, b) != '%'
    ensures Escape1(a) == [a] && a != '%' && a != '['
    ensures Escape1(b) == [b] && b != '%' && b != '['
  {
  }

  lemma EscapeOfReserved(c: char)
    requires Rank(c) < 9
    ensures StartsWithCode(Escape1(c)) && |Escape1(c)| == 3 && CodeChar(Escape1(c)[1], Escape1(c)[2]) == c
  {
  }

  lemma Escape1Head(c: char)
    ensures Escape1(c) != ""
    ensures Escape1(c)[0] == '%' || Escape1(c)[0] == '[' || Escape1(c) == [c]
  {
  }

  lemma EscapeCons(text: string)
    requires text != ""
    ensures Escape(text) == Escape1(text[0]) + Escape(text[1..]) && Escape(text) != ""
    ensures Escape(text)[0] == Escape1(text[0])[0]
    ensures Escape(text)[|Escape1(text[0])|..] == Escape(text[1..])
  {
    Escape1Head(text[0]);
  }

  /** A character that could be the second or third of a code stands for itself. */
  lemma HeadCharacter(text: string, c: char)
    requires Escape(text) != "" && Escape(text)[0] == c && c != '%' && c != '['
    ensures text != "" && text[0] == c && Escape(text)[1..] == Escape(text[1..])
  {
    EscapeCons(text);
    Escape1Head(text[0]);
  }

  /** An escaped text that starts with a code, although its first character was not
      escaped, comes from a field that starts with that code. */
  lemma HeadCode(text: string)
    requires text != "" && Escape1(text[0]) == [text[0]] && StartsWithCode(Escape(text))
    ensures StartsWithCode(text) && Escape(text)[3..] == Escape(text[3..])
  {
    var e := Escape(text);
    CodeDigits(e[1], e[2]);
    EscapeCons(text);
    var t1, e1 := text[1..], e[1..];
    HeadCharacter(t1, e1[0]);
    var t2, e2 := t1[1..], e1[1..];
    HeadCharacter(t2, e2[0]);
    assert e2[1..] == e[3..] && t2[1..] == text[3..];
  }

  /** Conversely a code in the field is copied as it is. */
  lemma CodeIsCopied(text: string)
    requires StartsWithCode(text)
    ensures StartsWithCode(Escape(text)) && Escape1(text[0]) == [text[0]]
  {
    CodeDigits(text[1], text[2]);
    EscapeCons(text);
    var t1 := text[1..];
    EscapeCons(t1);
    var t2 := t1[1..];
    EscapeCons(t2);
    assert Escape(t1)[1..] == Escape(t2);
    assert Escape(text)[1] == Escape(t1)[0] && Escape(text)[2] == Escape(t1)[1];
  }

  /** The first character of a field comes back, unless a code starts there. */
  lemma FirstComesBack(text: string)
    requires text != "" && !StartsWithCode(text)
    ensures Unescape(Escape(text)) == [text[0]] + Unescape(Escape(text[1..]))
  {
    var c, e := text[0], Escape(text);
    EscapeCons(text);
    if Rank(c) < 9 {
      EscapeOfReserved(c);
      assert e[1] == Escape1(c)[1] && e[2] == Escape1(c)[2];
    } else if c == '-' {
      assert e[0] == '[' && e[1] == '-' && e[2] == ']';
    } else if StartsWithCode(e) {
      HeadCode(text);
      assert false;
    }
  }

  /** A code comes back as the one character it stands for. */
  lemma CodeComesBack(text: string)
    requires StartsWithCode(text)
    ensures exists c :: Unescape(Escape(text)) == [c] + Unescape(Escape(text[3..]))
  {
    CodeIsCopied(text);
    HeadCode(text);
  }

  /** Unescaping inverts escaping exactly on the fields without a code of their own; on
      every other field something is lost. */
  lemma {:induction false} UnescapeInverts(text: string)
    ensures !ContainsCode(text) ==> Unescape(Escape(text)) == text
    ensures ContainsCode(text) ==> |Unescape(Escape(text))| < |text|
    decreases |text|
  {
    if text != "" {
      hide Escape, Unescape, StartsWithCode, ContainsCode;
      CodeHereOrBehind(text);
      if StartsWithCode(text) {
        CodeComesBack(text);
        UnescapeInverts(text[3..]);
      } else {
        FirstComesBack(text);
        UnescapeInverts(text[1..]);
        assert text == [text[0]] + text[1..];
      }
    }
  }

  lemma CodeHereOrBehind(text: string)
    requires text != ""
    ensures ContainsCode(text) <==> StartsWithCode(text) || ContainsCode(text[1..])
    ensures StartsWithCode(text) ==> |text| >= 3
  {
  }

  // ----- Joining -----

  /** A component is the list of identifying fields of one resource; the empty list
      stands for a relation that is not set. */
  type Component = seq<string>

  function JoinFields(fields: Component): string {
    if fields == [] then ""
    else if |fields| == 1 then Escape(fields[0])
    else Escape(fields[0]) + "-" + JoinFields(fields[1..])
  }

  function JoinComponents(components: seq<Component>): string {
    if components == [] then ""
    else if |components| == 1 then JoinFields(components[0])
    else JoinFields(components[0]) + "--" + JoinComponents(components[1..])
  }

  /** `separator.join(parts)` */
  function Join(separator: string, parts: seq<string>): string {
    if parts == [] then ""
    else if |parts| == 1 then parts[0]
    else parts[0] + separator + Join(separator, parts[1..])
  }

  lemma {:induction false} JoinOfEscaped(encoded: seq<string>, fields: Component)
    requires |encoded| == |fields| && forall i :: 0 <= i < |fields| ==> encoded[i] == Escape(fields[i])
    ensures Join("-", encoded) == JoinFields(fields)
  {
    if |fields| > 1 {
      JoinOfEscaped(encoded[1..], fields[1..]);
    }
  }

  lemma {:induction false} JoinOfPrinted(components: seq<Component>)
    ensures Join("--", Printed(components)) == JoinComponents(components)
  {
    if |components| > 1 {
      assert Printed(components)[1..] == Printed(components[1..]);
      JoinOfPrinted(components[1..]);
    }
  }

  /** What the identifiers rely on: no field is empty and none contains a code. */
  predicate CleanFields(fields: Component) {
    forall i :: 0 <= i < |fields| ==> fields[i] != "" && !ContainsCode(fields[i])
  }

  predicate Clean(components: seq<Component>) {
    forall i :: 0 <= i < |components| ==> CleanFields(components[i])
  }

  // ----- The decoder -----

  /** The escaped field at the front of the text, up to the first dash outside brackets. */
  function FieldLength(text: string): (n: nat)
    ensures n <= |text|
    ensures text != "" && text[0] != '-' ==> n > 0
  {
    if text == "" || text[0] == '-' then 0
    else if StartsWithDash(text) then 3 + FieldLength(text[3..])
    else 1 + FieldLength(text[1..])
  }

  /** The fields up to a double dash or the end, and what is left. */
  function DecodeFields(text: string): (r: (Component, string))
    ensures |r.1| <= |text|
    decreases |text|
  {
    if text == "" || text[0] == '-' then ([], text)
    else
      var n := FieldLength(text);
      var field, rest := Unescape(text[..n]), text[n..];
      if |rest| >= 2 && rest[0] == '-' && rest[1] != '-' then
        var (fields, rest') := DecodeFields(rest[1..]);
        ([field] + fields, rest')
      else ([field], rest)
  }

  function Decode(text: string): seq<Component>
    decreases |text|
  {
    var (fields, rest) := DecodeFields(text);
    if |rest| >= 2 then [fields] + Decode(rest[2..]) else [fields]
  }

  lemma FieldLengthOfEscape1(c: char, tail: string)
    ensures FieldLength(Escape1(c) + tail) == |Escape1(c)| + FieldLength(tail)
  {
    var t := Escape1(c) + tail;
    if c == '-' {
      assert t[3..] == tail;
    } else if Rank(c) < 9 {
      var t1 := t[1..];
      var t2 := t1[1..];
      assert t2[1..] == tail && t1[0] == High(c) && t2[0] == Low(c);
      assert FieldLength(t2) == 1 + FieldLength(tail);
      assert FieldLength(t1) == 1 + FieldLength(t2);
    } else {
      assert t[1..] == tail;
    }
  }

  /** Escaped text never shows a bare dash, and never starts with one. */
  lemma {:induction false} FieldLengthOfEscape(text: string, rest: string)
    requires rest == "" || rest[0] == '-'
    ensures FieldLength(Escape(text) + rest) == |Escape(text)|
    ensures text != "" ==> Escape(text) != "" && Escape(text)[0] != '-'
    decreases |text|
  {
    hide FieldLength, Escape1;
    var t := Escape(text) + rest;
    if text == "" {
      assert t == rest;
      NoField(rest);
    } else {
      var c, tail := text[0], Escape(text[1..]) + rest;
      FieldLengthOfEscape(text[1..], rest);
      assert t == Escape1(c) + tail;
      FieldLengthOfEscape1(c, tail);
      EscapeCons(text);
      NoDashFirst(c);
    }
  }

  lemma NoField(rest: string)
    requires rest == "" || rest[0] == '-'
    ensures FieldLength(rest) == 0
  {
  }

  lemma NoDashFirst(c: char)
    ensures Escape1(c) != "" && Escape1(c)[0] != '-'
  {
  }

  lemma DecodeOneField(field: string, rest: string)
    requires field != "" && !ContainsCode(field)
    requires rest == "" || rest[0] == '-'
    ensures DecodeFields(Escape(field) + rest) ==
            if |rest| >= 2 && rest[1] != '-'
            then ([field] + DecodeFields(rest[1..]).0, DecodeFields(rest[1..]).1)
            else ([field], rest)
  {
    var e := Escape(field);
    UnescapeInverts(field);
    FieldLengthOfEscape(field, rest);
    assert (e + rest)[..|e|] == e && (e + rest)[|e|..] == rest && (e + rest)[0] == e[0];
  }

  lemma JoinFieldsHead(fields: Component)
    requires fields != [] && CleanFields(fields)
    ensures JoinFields(fields) != "" && JoinFields(fields)[0] != '-'
  {
    FieldLengthOfEscape(fields[0], "");
  }

  lemma Reassociate(a: string, b: string, c: string, d: string)
    ensures a + b + c + d == a + (b + (c + d))
  {
  }

  lemma DecodeFirstField(fields: Component, rest: string)
    requires CleanFields(fields) && |fields| > 1
    ensures var next := DecodeFields(JoinFields(fields[1..]) + rest);
            DecodeFields(JoinFields(fields) + rest) == ([fields[0]] + next.0, next.1)
  {
    JoinFieldsHead(fields[1..]);
    var next := JoinFields(fields[1..]) + rest;
    var after := "-" + next;
    assert after[1] == next[0] != '-' && after[1..] == next;
    Reassociate(Escape(fields[0]), "-", JoinFields(fields[1..]), rest);
    hide ContainsCode, Unescape, Escape, FieldLength, DecodeFields;
    DecodeOneField(fields[0], after);
  }

  lemma DecodeNoField(rest: string)
    requires rest == "" || rest[0] == '-'
    ensures DecodeFields("" + rest) == ([], rest)
  {
    assert "" + rest == rest;
  }

  lemma {:induction false} DecodeFieldsInverts(fields: Component, rest: string)
    requires CleanFields(fields)
    requires rest == "" || (|rest| >= 2 && rest[0] == '-' && rest[1] == '-')
    ensures DecodeFields(JoinFields(fields) + rest) == (fields, rest)
    decreases |fields|
  {
    hide ContainsCode, Escape, DecodeFields;
    if fields == [] {
      DecodeNoField(rest);
    } else if |fields| == 1 {
      DecodeOneField(fields[0], rest);
      assert fields == [fields[0]];
    } else {
      DecodeFieldsInverts(fields[1..], rest);
      DecodeFirstField(fields, rest);
      assert fields == [fields[0]] + fields[1..];
    }
  }

  /** The decoder inverts the printer on every non-empty list of clean components. */
  lemma {:induction false} DecodeInverts(components: seq<Component>)
    requires components != [] && Clean(components)
    ensures Decode(JoinComponents(components)) == components
    decreases |components|
  {
    hide CleanFields, DecodeFields, JoinFields;
    if |components| == 1 {
      DecodeFieldsInverts(components[0], "");
      assert JoinComponents(components) == JoinFields(components[0]) + "";
    } else {
      var next := JoinComponents(components[1..]);
      DecodeFieldsInverts(components[0], "--" + next);
      DecodeInverts(components[1..]);
      assert JoinComponents(components) == JoinFields(components[0]) + ("--" + next);
      assert ("--" + next)[2..] == next;
    }
  }

  /** What a field is decoded to contains no code, and has the same escaped form. */
  lemma {:induction false} DecodedLooksTheSame(text: string)
    ensures var y := Unescape(Escape(text)); !ContainsCode(y) && Escape(y) == Escape(text)
    decreases |text|
  {
    if text != "" {
      var c, e := text[0], Escape(text);
      EscapeCons(text);
      if StartsWithCode(text) {
        CodeIsCopied(text);
        HeadCode(text);
        DecodedLooksTheSame(text[3..]);
        Prefixed(CodeChar(e[1], e[2]), Unescape(e[3..]));
        CodeOfChar(e[1], e[2]);
        assert e == e[..3] + e[3..];
      } else {
        DecodedLooksTheSame(text[1..]);
        var rest := Unescape(Escape(text[1..]));
        Prefixed(c, rest);
        if Rank(c) < 9 {
          EscapeOfReserved(c);
          assert e[1] == Escape1(c)[1] && e[2] == Escape1(c)[2];
        } else if c == '-' {
          assert e[0] == '[' && e[1] == '-' && e[2] == ']';
        } else {
          if StartsWithCode(e) {
            HeadCode(text);
            assert false;
          }
          if StartsWithCode([c] + rest) {
            StartsAlike([c] + rest);
            assert false;
          }
        }
      }
    }
  }

  lemma Prefixed(c: char, rest: string)
    ensures Escape([c] + rest) == Escape1(c) + Escape(rest)
    ensures ContainsCode([c] + rest) <==> StartsWithCode([c] + rest) || ContainsCode(rest)
  {
    assert ([c] + rest)[1..] == rest;
  }

  lemma CodeOfChar(a: char, b: char)
    requires CodeChar(a, b) != '%'
    ensures Escape1(CodeChar(a, b)) == ['%', a, b] && CodeChar(a, b) != '%'
  {
  }

  /** A code shows in the escaped text. */
  lemma StartsAlike(text: string)
    requires StartsWithCode(text)
    ensures StartsWithCode(Escape(text))
  {
    CodeIsCopied(text);
  }

  /** Neither hypothesis of the decoder can be dropped.  A field has the same identifier as some
      other field that contains no code exactly if it contains a code itself. */
  lemma CodeCollides(text: string)
    ensures ContainsCode(text) <==>
              exists other :: other != text && !ContainsCode(other) && JoinComponents([[other]]) == JoinComponents([[text]])
  {
    var y := Unescape(Escape(text));
    DecodedLooksTheSame(text);
    UnescapeInverts(text);
    assert JoinComponents([[y]]) == Escape(y) && JoinComponents([[text]]) == Escape(text);
    if other :| other != text && !ContainsCode(other) && JoinComponents([[other]]) == JoinComponents([[text]]) {
      UnescapeInverts(other);
      assert JoinComponents([[other]]) == Escape(other);
    }
  }

  /** An empty field has that of a component boundary. */
  lemma EmptyFieldCollides(a: string, b: string)
    ensures JoinComponents([[a, "", b]]) == JoinComponents([[a], [b]])
  {
    var inner := ["", b];
    var right := [[a], [b]];
    assert [a, "", b][1..] == inner;
    assert inner[1..] == [b];
    assert right[1..] == [[b]];
    assert JoinFields(inner) == Escape("") + "-" + JoinFields([b]);
    assert JoinFields([a, "", b]) == Escape(a) + "-" + JoinFields(inner);
    assert JoinComponents(right) == JoinFields([a]) + "--" + JoinComponents([[b]]);
    assert Escape(a) + "-" + ("" + "-" + Escape(b)) == Escape(a) + "--" + Escape(b);
  }

  // ----- Walking the named URL graph -----

  datatype Node = Node(fields: seq<string>, adjacent: seq<(string, string)>)
  type Graph = map<string, Node>

  /** What the server returns for one resource: its fields and the resources its
      foreign keys lead to. */
  datatype Object = Object(values: map<string, string>, related: map<string, Object>)

  /** The object answers to node `kind` of the graph, and so does whatever it leads to. */
  ghost predicate Conforms(graph: Graph, kind: string, obj: Object)
    decreases obj
  {
    && kind in graph && graph[kind].fields != []
    && (forall f <- graph[kind].fields :: f in obj.values)
    && (forall link <- graph[kind].adjacent :: link.0 in obj.related ==> Conforms(graph, link.1, obj.related[link.0]))
  }

  /** The part of an object that identifies it: a tree of field values. */
  datatype Identity = Identity(fields: Component, links: seq<Link>)
  datatype Link = Unset | To(target: Identity)

  function Fields(names: seq<string>, values: map<string, string>): Component
    requires forall f <- names :: f in values
  {
    seq(|names|, i requires 0 <= i < |names| => values[names[i]])
  }

  function IdentityOf(graph: Graph, kind: string, obj: Object): Identity
    requires Conforms(graph, kind, obj)
    decreases obj, 1, 0
  {
    Identity(Fields(graph[kind].fields, obj.values), Links(graph, graph[kind].adjacent, obj))
  }

  function Links(graph: Graph, adjacent: seq<(string, string)>, obj: Object): (r: seq<Link>)
    requires forall link <- adjacent :: link.0 in obj.related ==> Conforms(graph, link.1, obj.related[link.0])
    ensures |r| == |adjacent|
    decreases obj, 0, |adjacent|
  {
    if adjacent == [] then []
    else
      var (fk, kind) := adjacent[0];
      [if fk in obj.related then To(IdentityOf(graph, kind, obj.related[fk])) else Unset]
      + Links(graph, adjacent[1..], obj)
  }

  function Flatten(id: Identity): (r: seq<Component>)
    ensures r != [] && r[0] == id.fields
    decreases id, 0
  {
    [id.fields] + FlattenLinks(id.links)
  }

  function FlattenLink(link: Link): (r: seq<Component>)
    ensures r != []
    decreases link, 0
  {
    match link case Unset => [[]] case To(id) => Flatten(id)
  }

  function FlattenLinks(links: seq<Link>): seq<Component>
    decreases links, 0
  {
    if links == [] then [] else FlattenLink(links[0]) + FlattenLinks(links[1..])
  }

  function Printed(components: seq<Component>): seq<string> {
    seq(|components|, i requires 0 <= i < |components| => JoinFields(components[i]))
  }

  /** One component: encode each field, append, join. */
  method GenerateComponent(fields: Component) returns (component: string)
    ensures component == JoinFields(fields)
  {
    var encoded: seq<string> := [];
    for i := 0 to |fields|
      invariant |encoded| == i && forall j :: 0 <= j < i ==> encoded[j] == Escape(fields[j])
    {
      var e := EncodeUri(fields[i]);
      encoded := encoded + [e];
    }
    JoinOfEscaped(encoded, fields);
    component := Join("-", encoded);
  }

  /** Depth-first walk appending to a list that all levels share. */
  class Components {
    var items: seq<string>

    constructor ()
      ensures items == []
    {
      items := [];
    }

    method Walk(graph: Graph, kind: string, obj: Object)
      requires Conforms(graph, kind, obj)
      modifies this
      ensures items == old(items) + Printed(Flatten(IdentityOf(graph, kind, obj)))
      decreases obj
    {
      hide Links, Fields, FlattenLinks, FlattenLink, Printed;
      var component := GenerateComponent(Fields(graph[kind].fields, obj.values));
      items := items + [component];
      ghost var start := items;
      var adjacent := graph[kind].adjacent;
      ghost var links := Links(graph, adjacent, obj);
      PrintedNothing(start);
      PrintedWhole(old(items), IdentityOf(graph, kind, obj));
      assert links[..0] == [];
      for i := 0 to |adjacent|
        invariant items == start + Printed(FlattenLinks(links[..i]))
      {
        var (fk, next) := adjacent[i];
        ghost var before := items;
        LinksAt(graph, adjacent, obj, i);
        if fk in obj.related {
          Walk(graph, next, obj.related[fk]);
          PrintedWhole([], IdentityOf(graph, next, obj.related[fk]));
        } else {
          items := items + [""];
        }
        assert items == before + Printed(FlattenLink(links[i]));
        PrintedSnoc(links, i, start);
      }
      assert links[..|adjacent|] == links;
    }
  }

  lemma {:induction false} LinksAt(graph: Graph, adjacent: seq<(string, string)>, obj: Object, i: nat)
    requires i < |adjacent|
    requires forall link <- adjacent :: link.0 in obj.related ==> Conforms(graph, link.1, obj.related[link.0])
    ensures Links(graph, adjacent, obj)[i] ==
            if adjacent[i].0 in obj.related then To(IdentityOf(graph, adjacent[i].1, obj.related[adjacent[i].0])) else Unset
    decreases i
  {
    if i > 0 {
      LinksAt(graph, adjacent[1..], obj, i - 1);
    }
  }

  lemma PrintedNothing(start: seq<string>)
    ensures start + Printed(FlattenLinks([])) == start && Printed(FlattenLink(Unset)) == [""]
  {
  }

  lemma PrintedWhole(start: seq<string>, id: Identity)
    ensures start + Printed(Flatten(id)) == start + [JoinFields(id.fields)] + Printed(FlattenLinks(id.links))
    ensures Printed(FlattenLink(To(id))) == Printed(Flatten(id))
  {
  }

  lemma {:induction false} FlattenSnoc(links: seq<Link>, last: Link)
    ensures FlattenLinks(links + [last]) == FlattenLinks(links) + FlattenLink(last)
    decreases |links|
  {
    if links == [] {
      assert links + [last] == [last];
    } else {
      assert (links + [last])[1..] == links[1..] + [last];
      FlattenSnoc(links[1..], last);
    }
  }

  lemma PrintedSnoc(links: seq<Link>, i: nat, start: seq<string>)
    requires i < |links|
    ensures start + Printed(FlattenLinks(links[..i])) + Printed(FlattenLink(links[i])) ==
            start + Printed(FlattenLinks(links[..i + 1]))
  {
    FlattenSnoc(links[..i], links[i]);
    assert links[..i + 1] == links[..i] + [links[i]];
  }

  /** The identifier that is printed for a resource. */
  function Identifier(graph: Graph, kind: string, obj: Object): string
    requires Conforms(graph, kind, obj)
  {
    JoinComponents(Flatten(IdentityOf(graph, kind, obj)))
  }

  /** The identifier of a resource, computed as the script does. */
  method PrintIdentifier(graph: Graph, kind: string, obj: Object) returns (identifier: string)
    requires Conforms(graph, kind, obj)
    ensures identifier == Identifier(graph, kind, obj)
    ensures exists list :: Lists(graph, kind, obj, list) && identifier == JoinComponents(list)
  {
    var list := new Components();
    list.Walk(graph, kind, obj);
    assert list.items == Printed(Flatten(IdentityOf(graph, kind, obj)));
    JoinOfPrinted(Flatten(IdentityOf(graph, kind, obj)));
    identifier := Join("--", list.items);
    FlattenIsListed(graph, kind, obj, Flatten(IdentityOf(graph, kind, obj)));
  }

  // ----- Uniqueness -----

  /** The shape the graph prescribes for identities of one kind. */
  ghost predicate Shaped(graph: Graph, kind: string, id: Identity)
    decreases id
  {
    && kind in graph && id.fields != [] && |id.links| == |graph[kind].adjacent|
    && forall i :: 0 <= i < |id.links| && id.links[i].To? ==> Shaped(graph, graph[kind].adjacent[i].1, id.links[i].target)
  }

  lemma {:induction false} IdentityShaped(graph: Graph, kind: string, obj: Object)
    requires Conforms(graph, kind, obj)
    ensures Shaped(graph, kind, IdentityOf(graph, kind, obj))
    decreases obj
  {
    var adjacent := graph[kind].adjacent;
    forall i | 0 <= i < |adjacent| && Links(graph, adjacent, obj)[i].To?
      ensures Shaped(graph, adjacent[i].1, Links(graph, adjacent, obj)[i].target)
    {
      LinksAt(graph, adjacent, obj, i);
      IdentityShaped(graph, adjacent[i].1, obj.related[adjacent[i].0]);
    }
  }

  /** Identities of one kind form a prefix code: the list says where each one ends. */
  lemma {:induction false} FlattenPrefixCode(graph: Graph, kind: string, a: Identity, b: Identity,
                                             restA: seq<Component>, restB: seq<Component>)
    requires Shaped(graph, kind, a) && Shaped(graph, kind, b)
    requires Flatten(a) + restA == Flatten(b) + restB
    ensures a == b && restA == restB
    decreases a, 1, 0
  {
    var la, lb := FlattenLinks(a.links), FlattenLinks(b.links);
    assert (Flatten(a) + restA)[0] == a.fields && (Flatten(b) + restB)[0] == b.fields;
    assert (Flatten(a) + restA)[1..] == la + restA && (Flatten(b) + restB)[1..] == lb + restB;
    LinksPrefixCode(graph, graph[kind].adjacent, a, a.links, b.links, restA, restB);
  }

  lemma {:induction false} LinksPrefixCode(graph: Graph, adjacent: seq<(string, string)>, owner: Identity,
                                           a: seq<Link>, b: seq<Link>,
                                           restA: seq<Component>, restB: seq<Component>)
    requires |a| == |b| == |adjacent| && (forall i :: 0 <= i < |a| && a[i].To? ==> a[i].target < owner)
    requires forall i :: 0 <= i < |a| && a[i].To? ==> Shaped(graph, adjacent[i].1, a[i].target)
    requires forall i :: 0 <= i < |b| && b[i].To? ==> Shaped(graph, adjacent[i].1, b[i].target)
    requires FlattenLinks(a) + restA == FlattenLinks(b) + restB
    ensures a == b && restA == restB
    decreases owner, 0, |a|
  {
    if a == [] {
      assert FlattenLinks(a) + restA == restA && FlattenLinks(b) + restB == restB;
    } else {
      var headA := FlattenLink(a[0]);
      var headB := FlattenLink(b[0]);
      var tailA, tailB := FlattenLinks(a[1..]) + restA, FlattenLinks(b[1..]) + restB;
      assert FlattenLinks(a) + restA == headA + tailA && FlattenLinks(b) + restB == headB + tailB;
      assert (headA + tailA)[0] == headA[0] && (headB + tailB)[0] == headB[0];
      if a[0].To? {
        assert b[0].To?;
        FlattenPrefixCode(graph, adjacent[0].1, a[0].target, b[0].target, tailA, tailB);
      } else {
        assert b[0].Unset?;
        assert (headA + tailA)[1..] == tailA && (headB + tailB)[1..] == tailB;
      }
      LinksPrefixCode(graph, adjacent[1..], owner, a[1..], b[1..], restA, restB);
      assert a == [a[0]] + a[1..] && b == [b[0]] + b[1..];
    }
  }

  // ----- Identifiers in terms of the objects -----

  /** The objects agree on the identifying fields of their kind, and so do those they lead to. */
  ghost predicate SameFields(graph: Graph, kind: string, a: Object, b: Object)
    requires Conforms(graph, kind, a) && Conforms(graph, kind, b)
    decreases a
  {
    && (forall f <- graph[kind].fields :: a.values[f] == b.values[f])
    && (forall link <- graph[kind].adjacent :: link.0 in a.related <==> link.0 in b.related)
    && (forall link <- graph[kind].adjacent ::
          link.0 in a.related && link.0 in b.related ==> SameFields(graph, link.1, a.related[link.0], b.related[link.0]))
  }

  /** No identifying field of the object, or of one it leads to, is empty or contains a code. */
  ghost predicate CleanObject(graph: Graph, kind: string, obj: Object)
    requires Conforms(graph, kind, obj)
    decreases obj
  {
    && (forall f <- graph[kind].fields :: obj.values[f] != "" && !ContainsCode(obj.values[f]))
    && (forall link <- graph[kind].adjacent :: link.0 in obj.related ==> CleanObject(graph, link.1, obj.related[link.0]))
  }

  /** The list of components in words: the fields of the object in the order of the graph, and then,
      link by link, the list of the object it leads to, or one empty component. */
  ghost predicate Lists(graph: Graph, kind: string, obj: Object, list: seq<Component>)
    requires Conforms(graph, kind, obj)
    decreases obj, 1, 0
  {
    && list != [] && |list[0]| == |graph[kind].fields|
    && (forall i :: 0 <= i < |list[0]| ==> list[0][i] == obj.values[graph[kind].fields[i]])
    && ListsLinks(graph, graph[kind].adjacent, obj, list[1..])
  }

  ghost predicate ListsLinks(graph: Graph, adjacent: seq<(string, string)>, obj: Object, list: seq<Component>)
    requires forall link <- adjacent :: link.0 in obj.related ==> Conforms(graph, link.1, obj.related[link.0])
    decreases obj, 0, |adjacent|
  {
    if adjacent == [] then list == []
    else
      var (fk, kind) := adjacent[0];
      exists n :: 0 < n <= |list|
        && (if fk in obj.related then Lists(graph, kind, obj.related[fk], list[..n]) else list[..n] == [[]])
        && ListsLinks(graph, adjacent[1..], obj, list[n..])
  }

  lemma {:induction false} FlattenIsListed(graph: Graph, kind: string, obj: Object, list: seq<Component>)
    requires Conforms(graph, kind, obj)
    ensures Lists(graph, kind, obj, list) <==> list == Flatten(IdentityOf(graph, kind, obj))
    decreases obj, 1, 0
  {
    var id := IdentityOf(graph, kind, obj);
    LinksListed(graph, graph[kind].adjacent, obj, if list == [] then [] else list[1..]);
    LinksListed(graph, graph[kind].adjacent, obj, FlattenLinks(id.links));
    assert Flatten(id) == [id.fields] + FlattenLinks(id.links);
    if Lists(graph, kind, obj, list) {
      assert list[0] == id.fields && list == [list[0]] + list[1..];
    }
    if list == Flatten(id) {
      assert list[0] == id.fields && list[1..] == FlattenLinks(id.links);
    }
  }

  lemma {:induction false} LinksListed(graph: Graph, adjacent: seq<(string, string)>, obj: Object, list: seq<Component>)
    requires forall link <- adjacent :: link.0 in obj.related ==> Conforms(graph, link.1, obj.related[link.0])
    ensures ListsLinks(graph, adjacent, obj, list) <==> list == FlattenLinks(Links(graph, adjacent, obj))
    decreases obj, 0, |adjacent|
  {
    if adjacent != [] {
      var (fk, kind) := adjacent[0];
      var links := Links(graph, adjacent, obj);
      var head, tail := FlattenLink(links[0]), FlattenLinks(Links(graph, adjacent[1..], obj));
      assert links[1..] == Links(graph, adjacent[1..], obj);
      if ListsLinks(graph, adjacent, obj, list) {
        var n :| 0 < n <= |list|
                 && (if fk in obj.related then Lists(graph, kind, obj.related[fk], list[..n]) else list[..n] == [[]])
                 && ListsLinks(graph, adjacent[1..], obj, list[n..]);
        if fk in obj.related {
          FlattenIsListed(graph, kind, obj.related[fk], list[..n]);
        }
        LinksListed(graph, adjacent[1..], obj, list[n..]);
        assert list == list[..n] + list[n..];
      }
      if list == head + tail {
        var n := |head|;
        assert list[..n] == head && list[n..] == tail;
        if fk in obj.related {
          FlattenIsListed(graph, kind, obj.related[fk], head);
        }
        LinksListed(graph, adjacent[1..], obj, tail);
      }
    }
  }

  lemma {:induction false} SameIdentity(graph: Graph, kind: string, a: Object, b: Object)
    requires Conforms(graph, kind, a) && Conforms(graph, kind, b)
    ensures SameFields(graph, kind, a, b) <==> IdentityOf(graph, kind, a) == IdentityOf(graph, kind, b)
    decreases a
  {
    var names, adjacent := graph[kind].fields, graph[kind].adjacent;
    var la, lb := Links(graph, adjacent, a), Links(graph, adjacent, b);
    forall i | 0 <= i < |adjacent|
      ensures la[i] == lb[i] <==>
                var link := adjacent[i];
                (link.0 in a.related <==> link.0 in b.related)
                && (link.0 in a.related && link.0 in b.related ==> SameFields(graph, link.1, a.related[link.0], b.related[link.0]))
    {
      LinksAt(graph, adjacent, a, i);
      LinksAt(graph, adjacent, b, i);
      var link := adjacent[i];
      if link.0 in a.related && link.0 in b.related {
        SameIdentity(graph, link.1, a.related[link.0], b.related[link.0]);
      }
    }
    assert la == lb <==> forall i :: 0 <= i < |adjacent| ==> la[i] == lb[i];
    FieldsAgree(names, a.values, b.values);
  }

  lemma FieldsAgree(names: seq<string>, a: map<string, string>, b: map<string, string>)
    requires forall f <- names :: f in a && f in b
    ensures Fields(names, a) == Fields(names, b) <==> forall f <- names :: a[f] == b[f]
  {
    if Fields(names, a) == Fields(names, b) {
      forall f <- names
        ensures a[f] == b[f]
      {
        var i :| 0 <= i < |names| && names[i] == f;
        assert Fields(names, a)[i] == Fields(names, b)[i];
      }
    }
  }

  lemma {:induction false} CleanFlattened(graph: Graph, kind: string, obj: Object)
    requires Conforms(graph, kind, obj) && CleanObject(graph, kind, obj)
    ensures Clean(Flatten(IdentityOf(graph, kind, obj)))
    decreases obj, 1, 0
  {
    var links := Links(graph, graph[kind].adjacent, obj);
    forall link <- graph[kind].adjacent | link.0 in obj.related
      ensures Clean(Flatten(IdentityOf(graph, link.1, obj.related[link.0])))
    {
      CleanFlattened(graph, link.1, obj.related[link.0]);
    }
    CleanLinks(graph, graph[kind].adjacent, obj);
  }

  lemma {:induction false} CleanLinks(graph: Graph, adjacent: seq<(string, string)>, obj: Object)
    requires forall link <- adjacent :: link.0 in obj.related ==> Conforms(graph, link.1, obj.related[link.0])
    requires forall link <- adjacent :: link.0 in obj.related ==> Clean(Flatten(IdentityOf(graph, link.1, obj.related[link.0])))
    ensures Clean(FlattenLinks(Links(graph, adjacent, obj)))
    decreases |adjacent|
  {
    if adjacent != [] {
      CleanLinks(graph, adjacent[1..], obj);
      assert adjacent[0] in adjacent;
      var links := Links(graph, adjacent, obj);
      assert links[1..] == Links(graph, adjacent[1..], obj);
      assert Clean(FlattenLink(links[0]));
    }
  }

  /** Two resources of one kind with clean identifying fields have the same identifier
      exactly when they agree on every identifying field, their own and inherited. */
  lemma IdentifiersUnique(graph: Graph, kind: string, first: Object, second: Object)
    requires Conforms(graph, kind, first) && Conforms(graph, kind, second)
    requires CleanObject(graph, kind, first) && CleanObject(graph, kind, second)
    ensures Identifier(graph, kind, first) == Identifier(graph, kind, second) <==> SameFields(graph, kind, first, second)
  {
    CleanFlattened(graph, kind, first);
    CleanFlattened(graph, kind, second);
    SameIdentity(graph, kind, first, second);
    IdentifierTells(graph, kind, first, second);
  }

  lemma IdentifierTells(graph: Graph, kind: string, first: Object, second: Object)
    requires Conforms(graph, kind, first) && Conforms(graph, kind, second)
    requires Clean(Flatten(IdentityOf(graph, kind, first))) && Clean(Flatten(IdentityOf(graph, kind, second)))
    ensures Identifier(graph, kind, first) == Identifier(graph, kind, second)
            <==> IdentityOf(graph, kind, first) == IdentityOf(graph, kind, second)
  {
    var a, b := IdentityOf(graph, kind, first), IdentityOf(graph, kind, second);
    DecodeInverts(Flatten(a));
    DecodeInverts(Flatten(b));
    if Flatten(a) == Flatten(b) {
      IdentityShaped(graph, kind, first);
      IdentityShaped(graph, kind, second);
      assert Flatten(a) + [] == Flatten(b) + [];
      FlattenPrefixCode(graph, kind, a, b, [], []);
    }
  }
}
