/** Parsing undoes rendering, with or without the optional commas. */
module PrintParse {
  import opened Wrappers
  import opened IndexMap
  import opened JsonValues
  import opened Expectation
  import opened Domain
  import opened Ast
  import opened Tokens
  import opened Grammar
  import opened Canonical
  import Parsing

  /** The tokens from `i` on begin with `s`. */
  predicate At(tokens: seq<TokenKind>, i: nat, s: seq<TokenKind>) {
    i + |s| <= |tokens| && tokens[i..i + |s|] == s
  }

  lemma AtAppend(tokens: seq<TokenKind>, i: nat, a: seq<TokenKind>, b: seq<TokenKind>)
    requires At(tokens, i, a + b)
    ensures At(tokens, i, a) && At(tokens, i + |a|, b)
  {
    var s := tokens[i..i + |a + b|];
    assert s[..|a|] == a && s[|a|..] == b;
    assert tokens[i..i + |a|] == s[..|a|] && tokens[i + |a|..i + |a| + |b|] == s[|a|..];
  }

  lemma AtPeek(tokens: seq<TokenKind>, i: nat, s: seq<TokenKind>, k: nat)
    requires At(tokens, i, s) && k < |s|
    ensures Peek(tokens, i + k) == s[k] && i + k < |tokens|
  {
    assert tokens[i..i + |s|][k] == tokens[i + k];
  }

  lemma AtThree(tokens: seq<TokenKind>, i: nat, a: seq<TokenKind>, b: seq<TokenKind>, c: seq<TokenKind>)
    requires At(tokens, i, a + b + c)
    ensures At(tokens, i, a) && At(tokens, i + |a|, b) && At(tokens, i + |a| + |b|, c)
    ensures |a + b + c| == |a| + |b| + |c|
  {
    AtAppend(tokens, i, a + b, c);
    AtAppend(tokens, i, a, b);
  }

  lemma Regroup<T>(done: seq<T>, more: seq<T>)
    ensures if more == [] then done + more == done else done + [more[0]] + more[1..] == done + more
  {
  }

  lemma NothingBefore<T>(all: seq<T>)
    ensures [] + all == all
  {
  }

  lemma CommaParses(tokens: seq<TokenKind>, i: nat, commas: bool)
    requires At(tokens, i, Comma(commas)) && Peek(tokens, i + |Comma(commas)|) != COMMA
    ensures AfterOptionalComma(tokens, i) == i + |Comma(commas)|
  {
    if commas {
      AtPeek(tokens, i, [COMMA], 0);
    }
  }

  // ---- values ----

  lemma {:induction false} ValueParses(tokens: seq<TokenKind>, i: nat, value: ValueAst, room: nat, commas: bool)
    requires At(tokens, i, ValueTokens(value, commas)) && ValueFits(value, room)
    ensures ValueAt(tokens, i, room) == Some(Parsed(value, i + |ValueTokens(value, commas)|))
    decreases value, 0
  {
    hide At;
    hide Peek;
    hide ItemTokens;
    hide EntryTokens;
    hide ItemsAt;
    hide EntriesAt;
    hide ValueAt;
    if value.ArrayAst? {
      var inner := ItemTokens(value.items, commas);
      AtThree(tokens, i, [LEFT_BRACKET], inner, [RIGHT_BRACKET]);
      AtPeek(tokens, i, [LEFT_BRACKET], 0);
      AtPeek(tokens, i + 1 + |inner|, [RIGHT_BRACKET], 0);
      ItemsParse(tokens, i + 1, value.items, [], room - 1, commas);
      ContainerCases(tokens, i, room);
      NothingBefore(value.items);
    } else if value.ObjectAst? {
      var inner := EntryTokens(value.entries, commas);
      AtThree(tokens, i, [LEFT_BRACE], inner, [RIGHT_BRACE]);
      AtPeek(tokens, i, [LEFT_BRACE], 0);
      AtPeek(tokens, i + 1 + |inner|, [RIGHT_BRACE], 0);
      EntriesParse(tokens, i + 1, value.entries, [], room - 1, commas);
      ContainerCases(tokens, i, room);
      NothingBefore(value.entries);
    } else {
      ScalarParses(tokens, i, value, room, commas);
    }
  }

  lemma ScalarParses(tokens: seq<TokenKind>, i: nat, value: ValueAst, room: nat, commas: bool)
    requires At(tokens, i, ValueTokens(value, commas)) && !value.ArrayAst? && !value.ObjectAst?
    ensures ValueAt(tokens, i, room) == Some(Parsed(value, i + |ValueTokens(value, commas)|))
  {
    hide At;
    hide Peek;
    AtPeek(tokens, i, ValueTokens(value, commas), 0);
    assert ScalarOf(ValueTokens(value, commas)[0]) == Some(value);
  }

  lemma ContainerCases(tokens: seq<TokenKind>, i: nat, room: nat)
    requires room > 0
    ensures Peek(tokens, i) == LEFT_BRACKET && ItemsAt(tokens, i + 1, room - 1, []).Some? ==>
              var items := ItemsAt(tokens, i + 1, room - 1, []).value;
              ValueAt(tokens, i, room) == Some(Parsed(ArrayAst(items.node), items.next))
    ensures Peek(tokens, i) == LEFT_BRACE && EntriesAt(tokens, i + 1, room - 1, []).Some? ==>
              var entries := EntriesAt(tokens, i + 1, room - 1, []).value;
              ValueAt(tokens, i, room) == Some(Parsed(ObjectAst(entries.node), entries.next))
  {
    hide ItemsAt;
    hide EntriesAt;
  }

  lemma {:induction false} ItemsParse(
    tokens: seq<TokenKind>, i: nat, items: seq<ValueAst>, done: seq<ValueAst>, room: nat, commas: bool)
    requires At(tokens, i, ItemTokens(items, commas)) && Peek(tokens, i + |ItemTokens(items, commas)|) == RIGHT_BRACKET
    requires i + |ItemTokens(items, commas)| < |tokens|
    requires forall k | 0 <= k < |items| :: ValueFits(items[k], room)
    ensures ItemsAt(tokens, i, room, done) == Some(Parsed(done + items, i + |ItemTokens(items, commas)| + 1))
    decreases items
  {
    hide At;
    hide Peek;
    hide ItemAt;
    hide ItemsAt;
    hide ItemTokens;
    hide ValueTokens;
    hide ValueFits;
    ItemsStep(tokens, i, room, done);
    if items == [] {
      ItemTokensCons(items, commas);
      Regroup(done, items);
    } else {
      var first, rest := ValueTokens(items[0], commas), ItemTokens(items[1..], commas);
      var separator := if |items| == 1 then Comma(commas) else [COMMA];
      ItemTokensCons(items, commas);
      AtThree(tokens, i, first, separator, rest);
      AtPeek(tokens, i, first, 0);
      ValueStart(items[0], commas);
      ItemTokensCons(items[1..], commas);
      OneItemParses(tokens, i, items[0], separator, room, commas);
      ItemsParse(tokens, i + |first| + |separator|, items[1..], done + [items[0]], room, commas);
      Regroup(done, items);
    }
  }

  lemma {:induction false} OneItemParses(
    tokens: seq<TokenKind>, i: nat, item: ValueAst, separator: seq<TokenKind>, room: nat, commas: bool)
    requires At(tokens, i, ValueTokens(item, commas)) && ValueFits(item, room)
    requires At(tokens, i + |ValueTokens(item, commas)|, separator)
    requires separator == [COMMA] || (separator == [] && Peek(tokens, i + |ValueTokens(item, commas)|) == RIGHT_BRACKET)
    ensures ItemAt(tokens, i, room) == Some(Parsed(item, i + |ValueTokens(item, commas)| + |separator|))
    decreases item, 1
  {
    hide At;
    hide Peek;
    hide ValueAt;
    hide ValueTokens;
    ValueParses(tokens, i, item, room, commas);
    if separator == [COMMA] {
      AtPeek(tokens, i + |ValueTokens(item, commas)|, separator, 0);
    }
  }

  lemma ItemTokensCons(items: seq<ValueAst>, commas: bool)
    ensures items == [] ==> ItemTokens(items, commas) == []
    ensures items != [] ==>
              ItemTokens(items, commas)
              == ValueTokens(items[0], commas) + (if |items| == 1 then Comma(commas) else [COMMA])
                 + ItemTokens(items[1..], commas)
  {
  }

  lemma ItemsStep(tokens: seq<TokenKind>, i: nat, room: nat, done: seq<ValueAst>)
    ensures Peek(tokens, i) == RIGHT_BRACKET ==> ItemsAt(tokens, i, room, done) == Some(Parsed(done, i + 1))
    ensures Peek(tokens, i) != RIGHT_BRACKET && ItemAt(tokens, i, room).Some? ==>
              var item := ItemAt(tokens, i, room).value;
              ItemsAt(tokens, i, room, done) == ItemsAt(tokens, item.next, room, done + [item.node])
  {
    hide ItemAt;
  }

  lemma ValueStart(value: ValueAst, commas: bool)
    ensures var first := ValueTokens(value, commas)[0];
            first != RIGHT_BRACKET && first != RIGHT_BRACE && first != COMMA
  {
  }

  /** Nothing that can follow an entry starts with a comma. */
  lemma EntriesStart(tokens: seq<TokenKind>, i: nat, entries: Entries<ValueAst>, commas: bool)
    requires At(tokens, i, EntryTokens(entries, commas)) && Peek(tokens, i + |EntryTokens(entries, commas)|) == RIGHT_BRACE
    ensures Peek(tokens, i) != COMMA && (entries != [] ==> Peek(tokens, i) == StringLiteral(entries[0].0))
  {
    if entries != [] {
      AtPeek(tokens, i, EntryTokens(entries, commas), 0);
    }
  }

  lemma {:induction false} EntriesParse(
    tokens: seq<TokenKind>, i: nat, entries: Entries<ValueAst>, done: Entries<ValueAst>, room: nat, commas: bool)
    requires At(tokens, i, EntryTokens(entries, commas)) && Peek(tokens, i + |EntryTokens(entries, commas)|) == RIGHT_BRACE
    requires i + |EntryTokens(entries, commas)| < |tokens|
    requires EntriesFit(entries, room)
    ensures EntriesAt(tokens, i, room, done) == Some(Parsed(done + entries, i + |EntryTokens(entries, commas)| + 1))
    decreases entries, 0
  {
    hide *;
    EntriesStart(tokens, i, entries, commas);
    EntriesStep(tokens, i, room, done);
    EntryTokensCons(entries, commas);
    FirstEntryFits(entries, room);
    Regroup(done, entries);
    if entries != [] {
      var first, rest := OneEntryTokens(entries[0], commas), EntryTokens(entries[1..], commas);
      AtThree(tokens, i, first, Comma(commas), rest);
      EntriesStart(tokens, i + |first| + |Comma(commas)|, entries[1..], commas);
      CommaParses(tokens, i + |first|, commas);
      OneEntryParses(tokens, i, entries[0], room, commas);
      EntriesParse(tokens, i + |first| + |Comma(commas)|, entries[1..], done + [entries[0]], room, commas);
    }
  }

  lemma FirstEntryFits(entries: Entries<ValueAst>, room: nat)
    requires EntriesFit(entries, room)
    ensures entries != [] ==> ValueFits(entries[0].1, room) && EntriesFit(entries[1..], room)
  {
    hide ValueFits;
  }

  lemma EntryTokensCons(entries: Entries<ValueAst>, commas: bool)
    ensures entries == [] ==> EntryTokens(entries, commas) == []
    ensures entries != [] ==>
              EntryTokens(entries, commas)
              == OneEntryTokens(entries[0], commas) + Comma(commas) + EntryTokens(entries[1..], commas)
  {
  }

  lemma EntriesStep(tokens: seq<TokenKind>, i: nat, room: nat, done: Entries<ValueAst>)
    ensures Peek(tokens, i) == RIGHT_BRACE ==> EntriesAt(tokens, i, room, done) == Some(Parsed(done, i + 1))
    ensures Peek(tokens, i) != RIGHT_BRACE && EntryAt(tokens, i, room).Some? ==>
              var entry := EntryAt(tokens, i, room).value;
              EntriesAt(tokens, i, room, done) == EntriesAt(tokens, entry.next, room, done + [entry.node])
    ensures Peek(tokens, i) == RIGHT_BRACE ==> RequestHeadersAt(tokens, i, room, done) == Some(Parsed(done, i + 1))
    ensures Peek(tokens, i) != RIGHT_BRACE && RequestHeaderAt(tokens, i, room).Some? ==>
              var entry := RequestHeaderAt(tokens, i, room).value;
              RequestHeadersAt(tokens, i, room, done) == RequestHeadersAt(tokens, entry.next, room, done + [entry.node])
  {
    hide EntryAt;
    hide RequestHeaderAt;
  }

  lemma {:induction false} OneEntryParses(
    tokens: seq<TokenKind>, i: nat, entry: (string, ValueAst), room: nat, commas: bool)
    requires At(tokens, i, OneEntryTokens(entry, commas)) && ValueFits(entry.1, room)
    ensures EntryAt(tokens, i, room)
            == Some(Parsed(entry, AfterOptionalComma(tokens, i + |OneEntryTokens(entry, commas)|)))
    ensures RequestHeaderAt(tokens, i, room)
            == Some(Parsed(entry, AfterOptionalComma(tokens, i + |OneEntryTokens(entry, commas)|)))
    decreases entry, 0
  {
    hide At;
    hide Peek;
    hide AfterOptionalComma;
    hide EntryAt;
    hide RequestHeaderAt;
    hide KeyText;
    hide ValueAt;
    hide ValueTokens;
    StringIsKey(entry.0);
    Parsing.EntryCases(tokens, i, room);
    Parsing.RequestHeaderCases(tokens, i, room);
    var head := [StringLiteral(entry.0), EQUAL];
    AtAppend(tokens, i, head, ValueTokens(entry.1, commas));
    AtPeek(tokens, i, head, 0);
    AtPeek(tokens, i, head, 1);
    ValueParses(tokens, i + 2, entry.1, room, commas);
  }

  lemma StringIsKey(text: string)
    ensures KeyText(StringLiteral(text)) == Some(text)
  {
  }

  // ---- requests ----

  lemma {:induction false} RequestHeadersParse(
    tokens: seq<TokenKind>, i: nat, entries: Entries<ValueAst>, done: Entries<ValueAst>, room: nat, commas: bool)
    requires At(tokens, i, EntryTokens(entries, commas)) && Peek(tokens, i + |EntryTokens(entries, commas)|) == RIGHT_BRACE
    requires i + |EntryTokens(entries, commas)| < |tokens|
    requires EntriesFit(entries, room)
    ensures RequestHeadersAt(tokens, i, room, done)
            == Some(Parsed(done + entries, i + |EntryTokens(entries, commas)| + 1))
    decreases |entries|
  {
    hide *;
    EntriesStart(tokens, i, entries, commas);
    EntriesStep(tokens, i, room, done);
    EntryTokensCons(entries, commas);
    FirstEntryFits(entries, room);
    Regroup(done, entries);
    if entries != [] {
      var first, rest := OneEntryTokens(entries[0], commas), EntryTokens(entries[1..], commas);
      AtThree(tokens, i, first, Comma(commas), rest);
      EntriesStart(tokens, i + |first| + |Comma(commas)|, entries[1..], commas);
      CommaParses(tokens, i + |first|, commas);
      OneEntryParses(tokens, i, entries[0], room, commas);
      RequestHeadersParse(tokens, i + |first| + |Comma(commas)|, entries[1..], done + [entries[0]], room, commas);
    }
  }

  lemma SectionParses(tokens: seq<TokenKind>, i: nat, section: RequestSection, room: nat, commas: bool)
    requires At(tokens, i, SectionTokens(section, commas)) && SectionFits(section, room)
    ensures RequestSectionAt(tokens, i, room) == Some(Parsed(section, i + |SectionTokens(section, commas)|))
  {
    hide At;
    hide Peek;
    hide RequestHeadersAt;
    hide EntriesAt;
    hide EntriesFit;
    hide EntryTokens;
    var s := SectionTokens(section, commas);
    var head, inner := [s[0], LEFT_BRACE], EntryTokens(section.entries, commas);
    assert s == head + inner + [RIGHT_BRACE];
    AtThree(tokens, i, head, inner, [RIGHT_BRACE]);
    AtPeek(tokens, i, head, 0);
    AtPeek(tokens, i, head, 1);
    AtPeek(tokens, i + 2 + |inner|, [RIGHT_BRACE], 0);
    NothingBefore(section.entries);
    if section.RequestHeaders? {
      RequestHeadersParse(tokens, i + 2, section.entries, [], room, commas);
    } else {
      EntriesParse(tokens, i + 2, section.entries, [], room - 1, commas);
    }
  }

  lemma {:induction false} SectionsParse(
    tokens: seq<TokenKind>, i: nat, sections: seq<RequestSection>, done: seq<RequestSection>, room: nat, commas: bool)
    requires At(tokens, i, SectionsTokens(sections, commas))
    requires i + |SectionsTokens(sections, commas)| < |tokens|
    requires Peek(tokens, i + |SectionsTokens(sections, commas)|) == RIGHT_BRACE
    requires forall k | 0 <= k < |sections| :: SectionFits(sections[k], room)
    ensures RequestSectionsAt(tokens, i, room, done)
            == Some(Parsed(done + sections, i + |SectionsTokens(sections, commas)| + 1))
    decreases |sections|
  {
    hide At;
    hide Peek;
    hide RequestSectionAt;
    hide SectionFits;
    if sections == [] {
      Regroup(done, sections);
    } else {
      var first, rest := SectionTokens(sections[0], commas), SectionsTokens(sections[1..], commas);
      AtAppend(tokens, i, first, rest);
      AtPeek(tokens, i, first, 0);
      SectionParses(tokens, i, sections[0], room, commas);
      SectionsParse(tokens, i + |first|, sections[1..], done + [sections[0]], room, commas);
      Regroup(done, sections);
    }
  }

  lemma RequestParses(tokens: seq<TokenKind>, i: nat, request: RequestAst, room: nat, commas: bool)
    requires At(tokens, i, RequestTokens(request, commas)) && RequestFits(request, room)
    ensures RequestAt(tokens, i, room) == Some(Parsed(request, i + |RequestTokens(request, commas)|))
  {
    hide At;
    hide Peek;
    hide RequestSectionsAt;
    hide SectionFits;
    var head := [REQUEST, Verb(request.verb), StringLiteral(request.path), LEFT_BRACE];
    var inner := SectionsTokens(request.sections, commas);
    AtThree(tokens, i, head, inner, [RIGHT_BRACE]);
    AtPeek(tokens, i, head, 0);
    AtPeek(tokens, i, head, 1);
    AtPeek(tokens, i, head, 2);
    AtPeek(tokens, i, head, 3);
    AtPeek(tokens, i + 4 + |inner|, [RIGHT_BRACE], 0);
    SectionsParse(tokens, i + 4, request.sections, [], room, commas);
    NothingBefore(request.sections);
  }

  // ---- expectations ----

  /** What can follow a field: the next one, a comma, or the closing brace. */
  predicate FieldFollow(kind: TokenKind) {
    kind.StringLiteral? || kind == COMMA || kind == RIGHT_BRACE
  }

  lemma TypeParses(tokens: seq<TokenKind>, i: nat, expectedType: Option<ExpectedType>)
    requires At(tokens, i, TypeTokens(expectedType))
    requires expectedType.None? ==> Peek(tokens, i) != COLON
    ensures FieldTypeAt(tokens, i) == Some(Parsed(expectedType, i + |TypeTokens(expectedType)|))
  {
    hide At;
    hide Peek;
    if expectedType.Some? {
      var s := TypeTokens(expectedType);
      AtPeek(tokens, i, s, 0);
      AtPeek(tokens, i, s, 1);
    }
  }

  lemma CaptureParses(tokens: seq<TokenKind>, i: nat, expectedType: Option<ExpectedType>, capture: Option<string>)
    requires At(tokens, i, CaptureTokens(capture)) && (capture.Some? ==> expectedType.Some?)
    requires FieldFollow(Peek(tokens, i + |CaptureTokens(capture)|))
    ensures CaptureAt(tokens, i, expectedType) == Some(Parsed(capture, i + |CaptureTokens(capture)|))
  {
    hide At;
    hide Peek;
    if capture.Some? {
      var s := CaptureTokens(capture);
      AtPeek(tokens, i, s, 0);
      AtPeek(tokens, i, s, 1);
    }
  }

  /** What can follow a comparison: a capture or what follows the field. */
  predicate ComparisonFollow(kind: TokenKind) {
    kind == ARROW || FieldFollow(kind)
  }

  lemma {:induction false} ComparisonParses(
    tokens: seq<TokenKind>, i: nat, field: FieldAssertionAst, room: nat, commas: bool)
    requires At(tokens, i, ComparisonTokens(field, commas)) && FieldFits(field, room)
    requires ComparisonFollow(Peek(tokens, i + |ComparisonTokens(field, commas)|))
    ensures ComparisonAt(tokens, i, field.expectedType, room)
            == Some(Parsed((field.expectedValue, field.nested), i + |ComparisonTokens(field, commas)|))
    decreases field, 0
  {
    hide At;
    hide Peek;
    hide ValueAt;
    hide AssertionAt;
    hide ValueTokens;
    hide AssertionTokens;
    if field.expectedValue.Some? {
      var value := field.expectedValue.value;
      AtAppend(tokens, i, [EQUAL], ValueTokens(value, commas));
      AtPeek(tokens, i, [EQUAL], 0);
      ValueParses(tokens, i + 1, value, room, commas);
    } else if field.nested.Some? {
      AssertionStart(field.nested.value, commas);
      AtPeek(tokens, i, AssertionTokens(field.nested.value, commas), 0);
      AssertionParses(tokens, i, field.nested.value, room, commas);
    }
  }

  lemma AssertionStart(a: ObjectAssertionAst, commas: bool)
    ensures |AssertionTokens(a, commas)| > 0 && AssertionTokens(a, commas)[0] == LEFT_BRACE
  {
  }

  /** The token a type or comparison is followed by. */
  lemma ComparisonStart(tokens: seq<TokenKind>, i: nat, field: FieldAssertionAst, commas: bool)
    requires At(tokens, i, ComparisonTokens(field, commas))
    requires ComparisonFollow(Peek(tokens, i + |ComparisonTokens(field, commas)|))
    ensures Peek(tokens, i) != COLON
  {
    hide At;
    hide Peek;
    if field.expectedValue.Some? {
      AtPeek(tokens, i, ComparisonTokens(field, commas), 0);
    } else if field.nested.Some? {
      AssertionStart(field.nested.value, commas);
      AtPeek(tokens, i, ComparisonTokens(field, commas), 0);
    }
  }

  lemma CaptureStart(tokens: seq<TokenKind>, i: nat, capture: Option<string>)
    requires At(tokens, i, CaptureTokens(capture)) && FieldFollow(Peek(tokens, i + |CaptureTokens(capture)|))
    ensures ComparisonFollow(Peek(tokens, i))
  {
    hide At;
    hide Peek;
    if capture.Some? {
      AtPeek(tokens, i, CaptureTokens(capture), 0);
    }
  }

  lemma {:induction false} FieldParses(
    tokens: seq<TokenKind>, i: nat, field: FieldAssertionAst, room: nat, commas: bool)
    requires At(tokens, i, FieldTokens(field, commas)) && FieldFits(field, room)
    requires FieldFollow(Peek(tokens, i + |FieldTokens(field, commas)|))
    ensures FieldAt(tokens, i, room) == Some(Parsed(field, i + |FieldTokens(field, commas)|))
    decreases field, 1
  {
    hide *;
    FieldTokensSplit(tokens, i, field, commas);
    var c := i + 1 + |TypeTokens(field.expectedType)|;
    var k := c + |ComparisonTokens(field, commas)|;
    AtPeek(tokens, i, [StringLiteral(field.name)], 0);
    CaptureStart(tokens, k, field.capture);
    ComparisonStart(tokens, c, field, commas);
    NoTypeTokens(field.expectedType);
    SomethingIsAsserted(field, room);
    TypeParses(tokens, i + 1, field.expectedType);
    ComparisonParses(tokens, c, field, room, commas);
    CaptureParses(tokens, k, field.expectedType, field.capture);
    StringIsKey(field.name);
    FieldAssembles(tokens, i, c, k, i + |FieldTokens(field, commas)|, field, room);
  }

  lemma SomethingIsAsserted(field: FieldAssertionAst, room: nat)
    requires FieldFits(field, room)
    ensures field.expectedType.Some? || field.expectedValue.Some?
    ensures field.capture.Some? ==> field.expectedType.Some?
  {
  }

  lemma FieldAssembles(
    tokens: seq<TokenKind>, i: nat, c: nat, k: nat, end: nat, field: FieldAssertionAst, room: nat)
    requires KeyText(Peek(tokens, i)) == Some(field.name)
    requires FieldTypeAt(tokens, i + 1) == Some(Parsed(field.expectedType, c))
    requires ComparisonAt(tokens, c, field.expectedType, room) == Some(Parsed((field.expectedValue, field.nested), k))
    requires CaptureAt(tokens, k, field.expectedType) == Some(Parsed(field.capture, end))
    requires field.expectedType.Some? || field.expectedValue.Some?
    ensures FieldAt(tokens, i, room) == Some(Parsed(field, end))
  {
    hide *;
    Parsing.FieldCases(tokens, i, room);
  }

  lemma NoTypeTokens(t: Option<ExpectedType>)
    ensures t.None? ==> TypeTokens(t) == []
  {
  }

  lemma FieldTokensSplit(tokens: seq<TokenKind>, i: nat, field: FieldAssertionAst, commas: bool)
    requires At(tokens, i, FieldTokens(field, commas))
    ensures var name, typed := [StringLiteral(field.name)], TypeTokens(field.expectedType);
            var compared, captured := ComparisonTokens(field, commas), CaptureTokens(field.capture);
            && At(tokens, i, name) && At(tokens, i + 1, typed) && At(tokens, i + 1 + |typed|, compared)
            && At(tokens, i + 1 + |typed| + |compared|, captured)
            && |FieldTokens(field, commas)| == 1 + |typed| + |compared| + |captured|
  {
    hide At;
    hide TypeTokens;
    hide ComparisonTokens;
    hide CaptureTokens;
    var name, typed := [StringLiteral(field.name)], TypeTokens(field.expectedType);
    var compared, captured := ComparisonTokens(field, commas), CaptureTokens(field.capture);
    AtAppend(tokens, i, name + typed + compared, captured);
    AtThree(tokens, i, name, typed, compared);
  }

  lemma FieldsCons(a: ObjectAssertionAst, i: nat, commas: bool)
    requires i <= |a.fields|
    ensures i == |a.fields| ==> FieldsTokensFrom(a, i, commas) == []
    ensures i < |a.fields| ==>
              FieldsTokensFrom(a, i, commas)
              == FieldTokens(a.fields[i], commas) + Comma(commas) + FieldsTokensFrom(a, i + 1, commas)
  {
  }

  lemma FieldsStart(tokens: seq<TokenKind>, j: nat, a: ObjectAssertionAst, i: nat, commas: bool)
    requires i <= |a.fields| && At(tokens, j, FieldsTokensFrom(a, i, commas))
    requires Peek(tokens, j + |FieldsTokensFrom(a, i, commas)|) == RIGHT_BRACE
    ensures FieldFollow(Peek(tokens, j)) && Peek(tokens, j) != COMMA
    ensures i < |a.fields| ==> Peek(tokens, j) != RIGHT_BRACE
  {
    hide At;
    hide Peek;
    FieldsCons(a, i, commas);
    if i < |a.fields| {
      AtThree(tokens, j, FieldTokens(a.fields[i], commas), Comma(commas), FieldsTokensFrom(a, i + 1, commas));
      FieldTokensSplit(tokens, j, a.fields[i], commas);
      AtPeek(tokens, j, [StringLiteral(a.fields[i].name)], 0);
    }
  }

  lemma FieldsStep(tokens: seq<TokenKind>, i: nat, room: nat, done: seq<FieldAssertionAst>)
    ensures Peek(tokens, i) == RIGHT_BRACE ==> FieldsAt(tokens, i, room, done) == Some(Parsed(done, i + 1))
    ensures Peek(tokens, i) != RIGHT_BRACE && FieldAt(tokens, i, room).Some? ==>
              var field := FieldAt(tokens, i, room).value;
              FieldsAt(tokens, i, room, done)
              == FieldsAt(tokens, AfterOptionalComma(tokens, field.next), room, done + [field.node])
  {
    hide FieldAt;
  }

  lemma {:induction false} FieldsParse(
    tokens: seq<TokenKind>, j: nat, a: ObjectAssertionAst, i: nat, room: nat, commas: bool)
    requires i <= |a.fields| && At(tokens, j, FieldsTokensFrom(a, i, commas))
    requires j + |FieldsTokensFrom(a, i, commas)| < |tokens|
    requires Peek(tokens, j + |FieldsTokensFrom(a, i, commas)|) == RIGHT_BRACE
    requires forall k | 0 <= k < |a.fields| :: FieldFits(a.fields[k], room)
    ensures FieldsAt(tokens, j, room, a.fields[..i])
            == Some(Parsed(a.fields, j + |FieldsTokensFrom(a, i, commas)| + 1))
    decreases a, 0, |a.fields| - i
  {
    hide At;
    hide Peek;
    hide FieldAt;
    hide FieldsAt;
    hide FieldFits;
    hide FieldTokens;
    hide FieldsTokensFrom;
    hide AfterOptionalComma;
    hide FieldFollow;
    FieldsStart(tokens, j, a, i, commas);
    FieldsStep(tokens, j, room, a.fields[..i]);
    FieldsCons(a, i, commas);
    if i == |a.fields| {
      assert a.fields[..i] == a.fields;
    } else {
      var first, rest := FieldTokens(a.fields[i], commas), FieldsTokensFrom(a, i + 1, commas);
      AtThree(tokens, j, first, Comma(commas), rest);
      FieldsStart(tokens, j + |first| + |Comma(commas)|, a, i + 1, commas);
      CommaParses(tokens, j + |first|, commas);
      CommaFollows(tokens, j + |first|, commas);
      FieldParses(tokens, j, a.fields[i], room, commas);
      FieldsParse(tokens, j + |first| + |Comma(commas)|, a, i + 1, room, commas);
      assert a.fields[..i] + [a.fields[i]] == a.fields[..i + 1];
    }
  }

  lemma CommaFollows(tokens: seq<TokenKind>, i: nat, commas: bool)
    requires At(tokens, i, Comma(commas)) && FieldFollow(Peek(tokens, i + |Comma(commas)|))
    ensures FieldFollow(Peek(tokens, i))
  {
    if commas {
      AtPeek(tokens, i, [COMMA], 0);
    }
  }

  lemma {:induction false} AssertionParses(
    tokens: seq<TokenKind>, i: nat, a: ObjectAssertionAst, room: nat, commas: bool)
    requires At(tokens, i, AssertionTokens(a, commas)) && AssertionFits(a, room)
    ensures AssertionAt(tokens, i, a.mode, room) == Some(Parsed(a, i + |AssertionTokens(a, commas)|))
    decreases a, 1, 0
  {
    hide At;
    hide Peek;
    hide FieldsAt;
    hide FieldsTokensFrom;
    var inner := FieldsTokensFrom(a, 0, commas);
    AtThree(tokens, i, [LEFT_BRACE], inner, [RIGHT_BRACE]);
    AtPeek(tokens, i, [LEFT_BRACE], 0);
    AtPeek(tokens, i + 1 + |inner|, [RIGHT_BRACE], 0);
    FieldsParse(tokens, i + 1, a, 0, room - 1, commas);
    assert a.fields[..0] == [];
  }

  lemma HeaderParses(tokens: seq<TokenKind>, i: nat, entry: ResponseHeaderAst)
    requires At(tokens, i, HeaderTokens(entry))
    ensures ResponseHeaderAt(tokens, i) == Some(Parsed(entry, AfterOptionalComma(tokens, i + 3)))
    ensures Peek(tokens, i) == StringLiteral(entry.name) && |HeaderTokens(entry)| == 3
  {
    hide At;
    hide Peek;
    hide AfterOptionalComma;
    var s := HeaderTokens(entry);
    AtPeek(tokens, i, s, 0);
    AtPeek(tokens, i, s, 1);
    AtPeek(tokens, i, s, 2);
    Parsing.ResponseHeaderCases(tokens, i);
  }

  lemma HeadersCons(entries: seq<ResponseHeaderAst>, commas: bool)
    ensures entries == [] ==> HeadersTokens(entries, commas) == []
    ensures entries != [] ==>
              HeadersTokens(entries, commas)
              == HeaderTokens(entries[0]) + Comma(commas) + HeadersTokens(entries[1..], commas)
  {
  }

  lemma HeadersStart(tokens: seq<TokenKind>, i: nat, entries: seq<ResponseHeaderAst>, commas: bool)
    requires At(tokens, i, HeadersTokens(entries, commas))
    requires Peek(tokens, i + |HeadersTokens(entries, commas)|) == RIGHT_BRACE
    ensures Peek(tokens, i) != COMMA
  {
    hide *;
    HeadersCons(entries, commas);
    if entries != [] {
      AtThree(tokens, i, HeaderTokens(entries[0]), Comma(commas), HeadersTokens(entries[1..], commas));
      HeaderParses(tokens, i, entries[0]);
    }
  }

  lemma HeadersStep(tokens: seq<TokenKind>, i: nat, done: seq<ResponseHeaderAst>)
    ensures Peek(tokens, i) == RIGHT_BRACE ==> ResponseHeadersAt(tokens, i, done) == Some(Parsed(done, i + 1))
    ensures Peek(tokens, i) != RIGHT_BRACE && ResponseHeaderAt(tokens, i).Some? ==>
              var entry := ResponseHeaderAt(tokens, i).value;
              ResponseHeadersAt(tokens, i, done) == ResponseHeadersAt(tokens, entry.next, done + [entry.node])
  {
    hide ResponseHeaderAt;
  }

  lemma {:induction false} HeadersParse(
    tokens: seq<TokenKind>, i: nat, entries: seq<ResponseHeaderAst>, done: seq<ResponseHeaderAst>, commas: bool)
    requires At(tokens, i, HeadersTokens(entries, commas))
    requires Peek(tokens, i + |HeadersTokens(entries, commas)|) == RIGHT_BRACE
    ensures ResponseHeadersAt(tokens, i, done)
            == Some(Parsed(done + entries, i + |HeadersTokens(entries, commas)| + 1))
    decreases |entries|
  {
    hide *;
    HeadersCons(entries, commas);
    HeadersStep(tokens, i, done);
    Regroup(done, entries);
    if entries != [] {
      var first, rest := HeaderTokens(entries[0]), HeadersTokens(entries[1..], commas);
      AtThree(tokens, i, first, Comma(commas), rest);
      HeadersStart(tokens, i + |first| + |Comma(commas)|, entries[1..], commas);
      CommaParses(tokens, i + |first|, commas);
      HeaderParses(tokens, i, entries[0]);
      HeadersParse(tokens, i + |first| + |Comma(commas)|, entries[1..], done + [entries[0]], commas);
    }
  }

  lemma BodyTextParses(tokens: seq<TokenKind>, i: nat, text: string, commas: bool)
    requires At(tokens, i, [StringLiteral(text)]) && At(tokens, i + 1, Comma(commas))
    requires Peek(tokens, i + 1 + |Comma(commas)|) != COMMA
    ensures BodyTextAt(tokens, i) == Some(Parsed(text, i + 1 + |Comma(commas)|))
  {
    hide At;
    hide Peek;
    AtPeek(tokens, i, [StringLiteral(text)], 0);
    CommaParses(tokens, i + 1, commas);
  }

  lemma BodyParses(tokens: seq<TokenKind>, i: nat, body: BodyAssertionAst, room: nat, commas: bool)
    requires At(tokens, i, BodyTokens(body, commas))
    requires Peek(tokens, i + |BodyTokens(body, commas)|) != COMMA
    requires body.ObjectBody? ==> AssertionFits(body.shape, room)
    ensures BodyContentAt(tokens, i, room) == Some(Parsed(body, i + |BodyTokens(body, commas)|))
  {
    hide At;
    hide Peek;
    hide Comma;
    hide AssertionAt;
    hide AssertionTokens;
    hide AfterOptionalComma;
    hide BodyTextAt;
    Parsing.BodyCases(tokens, i, room);
    hide BodyContentAt;
    match body
    case EmptyBody =>
      AtAppend(tokens, i, [Identifier("empty")], Comma(commas));
      AtPeek(tokens, i, [Identifier("empty")], 0);
      CommaParses(tokens, i + 1, commas);
    case TextExactBody(text) =>
      assert [EQUAL, StringLiteral(text)] == [EQUAL] + [StringLiteral(text)];
      AtThree(tokens, i, [EQUAL], [StringLiteral(text)], Comma(commas));
      AtPeek(tokens, i, [EQUAL], 0);
      BodyTextParses(tokens, i + 1, text, commas);
    case TextContainsBody(text) =>
      assert [Identifier("contains"), StringLiteral(text)] == [Identifier("contains")] + [StringLiteral(text)];
      AtThree(tokens, i, [Identifier("contains")], [StringLiteral(text)], Comma(commas));
      AtPeek(tokens, i, [Identifier("contains")], 0);
      BodyTextParses(tokens, i + 1, text, commas);
    case ObjectBody(shape) => ObjectBodyParses(tokens, i, shape, room, commas);
  }

  lemma ObjectBodyParses(tokens: seq<TokenKind>, i: nat, shape: ObjectAssertionAst, room: nat, commas: bool)
    requires At(tokens, i, BodyTokens(ObjectBody(shape), commas)) && AssertionFits(shape, room)
    ensures BodyContentAt(tokens, i, room) == Some(Parsed(ObjectBody(shape), i + |BodyTokens(ObjectBody(shape), commas)|))
  {
    hide At;
    hide Peek;
    hide AssertionAt;
    hide AssertionTokens;
    var mode := if shape.mode.MatchExact? then [EXACT] else [];
    AtAppend(tokens, i, mode, AssertionTokens(shape, commas));
    AssertionStart(shape, commas);
    AtPeek(tokens, i + |mode|, AssertionTokens(shape, commas), 0);
    if shape.mode.MatchExact? {
      AtPeek(tokens, i, mode, 0);
    }
    AssertionParses(tokens, i + |mode|, shape, room, commas);
    Parsing.BodyCases(tokens, i, room);
  }

  lemma ExpectationSectionParses(
    tokens: seq<TokenKind>, i: nat, section: ExpectationSection, room: nat, commas: bool)
    requires At(tokens, i, ExpectationSectionTokens(section, commas)) && ExpectationSectionFits(section, room)
    requires Peek(tokens, i + |ExpectationSectionTokens(section, commas)|) != COMMA
    ensures ExpectationSectionAt(tokens, i, room)
            == Some(Parsed(section, i + |ExpectationSectionTokens(section, commas)|))
  {
    hide At;
    hide Peek;
    hide Comma;
    hide AfterOptionalComma;
    hide BodyContentAt;
    hide BodyTokens;
    hide HeadersTokens;
    hide ResponseHeadersAt;
    match section
    case StatusSection(status) =>
      var head := [STATUS, EQUAL, IntegerLiteral(status)];
      AtAppend(tokens, i, head, Comma(commas));
      AtPeek(tokens, i, head, 0);
      AtPeek(tokens, i, head, 1);
      AtPeek(tokens, i, head, 2);
      CommaParses(tokens, i + 3, commas);
    case HeadersSection(entries) =>
      var head, inner := [HEADERS, LEFT_BRACE], HeadersTokens(entries, commas);
      AtThree(tokens, i, head, inner, [RIGHT_BRACE]);
      AtPeek(tokens, i, head, 0);
      AtPeek(tokens, i, head, 1);
      AtPeek(tokens, i + 2 + |inner|, [RIGHT_BRACE], 0);
      HeadersParse(tokens, i + 2, entries, [], commas);
      NothingBefore(entries);
    case BodySection(body) =>
      AtAppend(tokens, i, [BODY], BodyTokens(body, commas));
      AtPeek(tokens, i, [BODY], 0);
      BodyParses(tokens, i + 1, body, room, commas);
  }

  lemma ExpectationSectionStart(section: ExpectationSection, commas: bool)
    ensures var s := ExpectationSectionTokens(section, commas);
            |s| > 0 && s[0] != RIGHT_BRACE && s[0] != COMMA
  {
    hide HeadersTokens;
    hide BodyTokens;
  }

  lemma ExpectationSectionsCons(sections: seq<ExpectationSection>, commas: bool)
    ensures sections == [] ==> ExpectationSectionsTokens(sections, commas) == []
    ensures sections != [] ==>
              ExpectationSectionsTokens(sections, commas)
              == ExpectationSectionTokens(sections[0], commas) + ExpectationSectionsTokens(sections[1..], commas)
  {
  }

  lemma ExpectationSectionsStart(tokens: seq<TokenKind>, i: nat, sections: seq<ExpectationSection>, commas: bool)
    requires At(tokens, i, ExpectationSectionsTokens(sections, commas))
    requires Peek(tokens, i + |ExpectationSectionsTokens(sections, commas)|) == RIGHT_BRACE
    ensures Peek(tokens, i) != COMMA && (sections != [] ==> Peek(tokens, i) != RIGHT_BRACE)
  {
    hide *;
    ExpectationSectionsCons(sections, commas);
    if sections != [] {
      var first := ExpectationSectionTokens(sections[0], commas);
      AtAppend(tokens, i, first, ExpectationSectionsTokens(sections[1..], commas));
      ExpectationSectionStart(sections[0], commas);
      AtPeek(tokens, i, first, 0);
    }
  }

  lemma ExpectationSectionsStep(tokens: seq<TokenKind>, i: nat, room: nat, done: seq<ExpectationSection>)
    ensures Peek(tokens, i) == RIGHT_BRACE ==> ExpectationSectionsAt(tokens, i, room, done) == Some(Parsed(done, i + 1))
    ensures Peek(tokens, i) != RIGHT_BRACE && ExpectationSectionAt(tokens, i, room).Some? ==>
              var section := ExpectationSectionAt(tokens, i, room).value;
              ExpectationSectionsAt(tokens, i, room, done)
              == ExpectationSectionsAt(tokens, section.next, room, done + [section.node])
  {
    hide ExpectationSectionAt;
  }

  lemma FirstSectionFits(sections: seq<ExpectationSection>, room: nat)
    requires ExpectationFits(ExpectationAst(sections), room)
    ensures sections != [] ==>
              ExpectationSectionFits(sections[0], room) && ExpectationFits(ExpectationAst(sections[1..]), room)
  {
    hide ExpectationSectionFits;
  }

  lemma {:induction false} ExpectationSectionsParse(
    tokens: seq<TokenKind>, i: nat, sections: seq<ExpectationSection>, done: seq<ExpectationSection>, room: nat,
    commas: bool)
    requires At(tokens, i, ExpectationSectionsTokens(sections, commas))
    requires Peek(tokens, i + |ExpectationSectionsTokens(sections, commas)|) == RIGHT_BRACE
    requires ExpectationFits(ExpectationAst(sections), room)
    ensures ExpectationSectionsAt(tokens, i, room, done)
            == Some(Parsed(done + sections, i + |ExpectationSectionsTokens(sections, commas)| + 1))
    decreases |sections|
  {
    hide *;
    ExpectationSectionsCons(sections, commas);
    ExpectationSectionsStart(tokens, i, sections, commas);
    ExpectationSectionsStep(tokens, i, room, done);
    FirstSectionFits(sections, room);
    Regroup(done, sections);
    if sections != [] {
      var first, rest := ExpectationSectionTokens(sections[0], commas), ExpectationSectionsTokens(sections[1..], commas);
      AtAppend(tokens, i, first, rest);
      ExpectationSectionsStart(tokens, i + |first|, sections[1..], commas);
      ExpectationSectionParses(tokens, i, sections[0], room, commas);
      ExpectationSectionsParse(tokens, i + |first|, sections[1..], done + [sections[0]], room, commas);
    }
  }

  lemma ExpectationParses(tokens: seq<TokenKind>, i: nat, expectation: ExpectationAst, room: nat, commas: bool)
    requires At(tokens, i, ExpectationTokens(expectation, commas)) && ExpectationFits(expectation, room)
    ensures ExpectationAt(tokens, i, room) == Some(Parsed(expectation, i + |ExpectationTokens(expectation, commas)|))
    ensures Peek(tokens, i) == EXPECT
  {
    hide At;
    hide Peek;
    hide ExpectationSectionsAt;
    hide ExpectationSectionsTokens;
    hide ExpectationSectionFits;
    var head, inner := [EXPECT, LEFT_BRACE], ExpectationSectionsTokens(expectation.sections, commas);
    AtThree(tokens, i, head, inner, [RIGHT_BRACE]);
    AtPeek(tokens, i, head, 0);
    AtPeek(tokens, i, head, 1);
    AtPeek(tokens, i + 2 + |inner|, [RIGHT_BRACE], 0);
    ExpectationSectionsParse(tokens, i + 2, expectation.sections, [], room, commas);
    NothingBefore(expectation.sections);
  }

  // ---- tests and suites ----

  lemma RequestStart(tokens: seq<TokenKind>, i: nat, request: RequestAst, commas: bool)
    requires At(tokens, i, RequestTokens(request, commas))
    ensures Peek(tokens, i) == REQUEST
  {
    hide At;
    hide Peek;
    AtPeek(tokens, i, RequestTokens(request, commas), 0);
  }

  lemma ListCons(test: TestAst, commas: bool)
    ensures test.requests == [] ==> RequestsTokens(test.requests, commas) == []
    ensures test.requests != [] ==>
              RequestsTokens(test.requests, commas)
              == RequestTokens(test.requests[0], commas) + RequestsTokens(test.requests[1..], commas)
    ensures test.expectations == [] ==> ExpectationsTokens(test.expectations, commas) == []
    ensures test.expectations != [] ==>
              ExpectationsTokens(test.expectations, commas)
              == ExpectationTokens(test.expectations[0], commas) + ExpectationsTokens(test.expectations[1..], commas)
  {
  }

  lemma TestItemsStep(
    tokens: seq<TokenKind>, i: nat, room: nat, requests: seq<RequestAst>, expectations: seq<ExpectationAst>)
    ensures Peek(tokens, i) == RIGHT_BRACE && requests != [] && expectations != [] ==>
              TestItemsAt(tokens, i, room, requests, expectations) == Some(Parsed((requests, expectations), i + 1))
    ensures Peek(tokens, i) == REQUEST && expectations == [] && RequestAt(tokens, i, room).Some? ==>
              var request := RequestAt(tokens, i, room).value;
              TestItemsAt(tokens, i, room, requests, expectations)
              == TestItemsAt(tokens, request.next, room, requests + [request.node], expectations)
    ensures Peek(tokens, i) == EXPECT && ExpectationAt(tokens, i, room).Some? ==>
              var expectation := ExpectationAt(tokens, i, room).value;
              TestItemsAt(tokens, i, room, requests, expectations)
              == TestItemsAt(tokens, expectation.next, room, requests, expectations + [expectation.node])
  {
    hide RequestAt;
    hide ExpectationAt;
  }

  lemma {:induction false} ExpectationsParse(
    tokens: seq<TokenKind>, i: nat, requests: seq<RequestAst>, done: seq<ExpectationAst>,
    expectations: seq<ExpectationAst>, room: nat, commas: bool)
    requires At(tokens, i, ExpectationsTokens(expectations, commas))
    requires Peek(tokens, i + |ExpectationsTokens(expectations, commas)|) == RIGHT_BRACE
    requires requests != [] && done + expectations != []
    requires forall k | 0 <= k < |expectations| :: ExpectationFits(expectations[k], room)
    ensures TestItemsAt(tokens, i, room, requests, done)
            == Some(Parsed((requests, done + expectations), i + |ExpectationsTokens(expectations, commas)| + 1))
    decreases |expectations|
  {
    hide *;
    ListCons(TestAst("", [], expectations), commas);
    TestItemsStep(tokens, i, room, requests, done);
    Regroup(done, expectations);
    if expectations != [] {
      var first, rest := ExpectationTokens(expectations[0], commas), ExpectationsTokens(expectations[1..], commas);
      AtAppend(tokens, i, first, rest);
      ExpectationParses(tokens, i, expectations[0], room, commas);
      assert |done + [expectations[0]] + expectations[1..]| > 0;
      ExpectationsParse(tokens, i + |first|, requests, done + [expectations[0]], expectations[1..], room, commas);
    }
  }

  lemma {:induction false} RequestsParse(
    tokens: seq<TokenKind>, i: nat, done: seq<RequestAst>, requests: seq<RequestAst>,
    expectations: seq<ExpectationAst>, room: nat, commas: bool)
    requires At(tokens, i, RequestsTokens(requests, commas))
    requires At(tokens, i + |RequestsTokens(requests, commas)|, ExpectationsTokens(expectations, commas))
    requires Peek(tokens, i + |RequestsTokens(requests, commas)| + |ExpectationsTokens(expectations, commas)|) == RIGHT_BRACE
    requires done + requests != [] && expectations != []
    requires forall k | 0 <= k < |requests| :: RequestFits(requests[k], room)
    requires forall k | 0 <= k < |expectations| :: ExpectationFits(expectations[k], room)
    ensures TestItemsAt(tokens, i, room, done, [])
            == Some(Parsed(
                      (done + requests, expectations),
                      i + |RequestsTokens(requests, commas)| + |ExpectationsTokens(expectations, commas)| + 1))
    decreases |requests|
  {
    hide *;
    ListCons(TestAst("", requests, []), commas);
    TestItemsStep(tokens, i, room, done, []);
    Regroup(done, requests);
    if requests == [] {
      NothingBefore(expectations);
      ExpectationsParse(tokens, i, done, [], expectations, room, commas);
    } else {
      var first, rest := RequestTokens(requests[0], commas), RequestsTokens(requests[1..], commas);
      AtAppend(tokens, i, first, rest);
      RequestStart(tokens, i, requests[0], commas);
      RequestParses(tokens, i, requests[0], room, commas);
      assert |done + [requests[0]] + requests[1..]| > 0;
      RequestsParse(tokens, i + |first|, done + [requests[0]], requests[1..], expectations, room, commas);
    }
  }

  lemma TestParses(tokens: seq<TokenKind>, i: nat, test: TestAst, room: nat, commas: bool)
    requires At(tokens, i, TestTokens(test, commas)) && TestFits(test, room)
    ensures TestAt(tokens, i, room) == Some(Parsed(test, i + |TestTokens(test, commas)|))
    ensures Peek(tokens, i) == TEST
  {
    hide At;
    hide Peek;
    hide TestItemsAt;
    hide RequestsTokens;
    hide ExpectationsTokens;
    hide RequestFits;
    hide ExpectationFits;
    var head, requests := [TEST, StringLiteral(test.name), LEFT_BRACE], RequestsTokens(test.requests, commas);
    var expectations := ExpectationsTokens(test.expectations, commas);
    AtThree(tokens, i, head, requests, expectations + [RIGHT_BRACE]);
    AtAppend(tokens, i + 3 + |requests|, expectations, [RIGHT_BRACE]);
    AtPeek(tokens, i, head, 0);
    AtPeek(tokens, i, head, 1);
    AtPeek(tokens, i, head, 2);
    AtPeek(tokens, i + 3 + |requests| + |expectations|, [RIGHT_BRACE], 0);
    NothingBefore(test.requests);
    RequestsParse(tokens, i + 3, [], test.requests, test.expectations, room, commas);
  }

  lemma TestsCons(tests: seq<TestAst>, commas: bool)
    ensures tests == [] ==> TestsTokens(tests, commas) == []
    ensures tests != [] ==> TestsTokens(tests, commas) == TestTokens(tests[0], commas) + TestsTokens(tests[1..], commas)
  {
  }

  lemma TestsStep(tokens: seq<TokenKind>, i: nat, room: nat, done: seq<TestAst>)
    ensures Peek(tokens, i) == RIGHT_BRACE ==> TestsAt(tokens, i, room, done) == Some(Parsed(done, i + 1))
    ensures Peek(tokens, i) != RIGHT_BRACE && TestAt(tokens, i, room).Some? ==>
              var test := TestAt(tokens, i, room).value;
              TestsAt(tokens, i, room, done) == TestsAt(tokens, test.next, room, done + [test.node])
  {
    hide TestAt;
  }

  lemma FirstTestFits(tests: seq<TestAst>, room: nat)
    requires TestsFit(tests, room)
    ensures tests != [] ==> TestFits(tests[0], room) && TestsFit(tests[1..], room)
  {
    hide TestFits;
  }

  lemma {:induction false} TestsParse(
    tokens: seq<TokenKind>, i: nat, tests: seq<TestAst>, done: seq<TestAst>, room: nat, commas: bool)
    requires At(tokens, i, TestsTokens(tests, commas)) && Peek(tokens, i + |TestsTokens(tests, commas)|) == RIGHT_BRACE
    requires TestsFit(tests, room)
    ensures TestsAt(tokens, i, room, done) == Some(Parsed(done + tests, i + |TestsTokens(tests, commas)| + 1))
    decreases |tests|
  {
    hide *;
    TestsCons(tests, commas);
    TestsStep(tokens, i, room, done);
    FirstTestFits(tests, room);
    Regroup(done, tests);
    if tests != [] {
      var first := TestTokens(tests[0], commas);
      AtAppend(tokens, i, first, TestsTokens(tests[1..], commas));
      TestParses(tokens, i, tests[0], room, commas);
      TestsParse(tokens, i + |first|, tests[1..], done + [tests[0]], room, commas);
    }
  }

  lemma BlockParses(tokens: seq<TokenKind>, i: nat, block: BlockAst, room: nat, commas: bool)
    requires At(tokens, i, BlockTokens(block, commas)) && BlockFits(block, room)
    ensures BlockAt(tokens, i, room) == Some(Parsed(block, i + |BlockTokens(block, commas)|))
    ensures Peek(tokens, i) != EOF && (Peek(tokens, i) == CORE <==> block.CoreAst?)
  {
    hide At;
    hide Peek;
    hide TestAt;
    hide TestsAt;
    hide TestTokens;
    hide TestsTokens;
    hide TestFits;
    hide TestsFit;
    match block
    case CoreAst(tests) =>
      var head, inner := [CORE, LEFT_BRACE], TestsTokens(tests, commas);
      AtThree(tokens, i, head, inner, [RIGHT_BRACE]);
      AtPeek(tokens, i, head, 0);
      AtPeek(tokens, i, head, 1);
      AtPeek(tokens, i + 2 + |inner|, [RIGHT_BRACE], 0);
      TestsParse(tokens, i + 2, tests, [], room, commas);
      NothingBefore(tests);
    case PipelineAst(name, tests) =>
      var head, inner := [PIPELINE, StringLiteral(name), LEFT_BRACE], TestsTokens(tests, commas);
      AtThree(tokens, i, head, inner, [RIGHT_BRACE]);
      AtPeek(tokens, i, head, 0);
      AtPeek(tokens, i, head, 1);
      AtPeek(tokens, i, head, 2);
      AtPeek(tokens, i + 3 + |inner|, [RIGHT_BRACE], 0);
      TestsParse(tokens, i + 3, tests, [], room, commas);
      NothingBefore(tests);
    case StandaloneAst(test) => TestParses(tokens, i, test, room, commas);
  }

  lemma BlocksStep(tokens: seq<TokenKind>, i: nat, room: nat, hasCore: bool, done: seq<BlockAst>)
    ensures Peek(tokens, i) == EOF && done != [] ==> BlocksAt(tokens, i, room, hasCore, done) == Some(done)
    ensures Peek(tokens, i) != EOF && BlockAt(tokens, i, room).Some? && !(Peek(tokens, i) == CORE && hasCore) ==>
              var block := BlockAt(tokens, i, room).value;
              BlocksAt(tokens, i, room, hasCore, done)
              == BlocksAt(tokens, block.next, room, hasCore || Peek(tokens, i) == CORE, done + [block.node])
  {
    hide BlockAt;
  }

  /** No second core follows. */
  ghost predicate CoresFollow(blocks: seq<BlockAst>, hasCore: bool) {
    && (forall i, j | 0 <= i < j < |blocks| :: !(blocks[i].CoreAst? && blocks[j].CoreAst?))
    && (hasCore ==> forall i | 0 <= i < |blocks| :: !blocks[i].CoreAst?)
  }

  lemma FirstBlockFits(blocks: seq<BlockAst>, hasCore: bool, room: nat)
    requires CoresFollow(blocks, hasCore) && forall k | 0 <= k < |blocks| :: BlockFits(blocks[k], room)
    ensures blocks != [] ==>
              && BlockFits(blocks[0], room) && !(hasCore && blocks[0].CoreAst?)
              && CoresFollow(blocks[1..], hasCore || blocks[0].CoreAst?)
              && forall k | 0 <= k < |blocks[1..]| :: BlockFits(blocks[1..][k], room)
  {
    hide BlockFits;
  }

  lemma {:induction false} BlocksParse(
    tokens: seq<TokenKind>, i: nat, blocks: seq<BlockAst>, done: seq<BlockAst>, room: nat, hasCore: bool, commas: bool)
    requires At(tokens, i, BlocksTokens(blocks, commas)) && Peek(tokens, i + |BlocksTokens(blocks, commas)|) == EOF
    requires CoresFollow(blocks, hasCore) && forall k | 0 <= k < |blocks| :: BlockFits(blocks[k], room)
    requires done + blocks != []
    ensures BlocksAt(tokens, i, room, hasCore, done) == Some(done + blocks)
    decreases |blocks|
  {
    BlocksCons(blocks, commas);
    hide *;
    BlocksStep(tokens, i, room, hasCore, done);
    FirstBlockFits(blocks, hasCore, room);
    Regroup(done, blocks);
    if blocks != [] {
      var first := BlockTokens(blocks[0], commas);
      AtAppend(tokens, i, first, BlocksTokens(blocks[1..], commas));
      BlockParses(tokens, i, blocks[0], room, commas);
      assert |done + [blocks[0]] + blocks[1..]| > 0;
      BlocksParse(tokens, i + |first|, blocks[1..], done + [blocks[0]], room, hasCore || blocks[0].CoreAst?, commas);
    }
  }

  lemma BlocksCons(blocks: seq<BlockAst>, commas: bool)
    ensures blocks == [] ==> BlocksTokens(blocks, commas) == []
    ensures blocks != [] ==>
              BlocksTokens(blocks, commas) == BlockTokens(blocks[0], commas) + BlocksTokens(blocks[1..], commas)
  {
  }

  /** Every tree that respects the grammar is parsed back from its rendering, whether optional commas are written or not. */
  lemma ParsingUndoesPrinting(ast: SuiteAst, limit: nat, commas: bool)
    requires SuiteFits(ast, limit)
    ensures SuiteAt(SuiteTokens(ast, commas), limit) == Some(ast)
  {
    hide BlocksTokens;
    hide BlocksAt;
    hide BlockFits;
    var tokens, inner := SuiteTokens(ast, commas), BlocksTokens(ast.blocks, commas);
    assert tokens[..|inner|] == inner && Peek(tokens, |inner|) == EOF;
    NothingBefore(ast.blocks);
    BlocksParse(tokens, 0, ast.blocks, [], limit, false, commas);
  }
}
