/** Every accepted tree respects the grammar and the nesting limit, so parsing yields exactly the printable trees. */
module ParsedFits {
  import opened Wrappers
  import opened IndexMap
  import opened JsonValues
  import opened Expectation
  import opened Domain
  import opened Ast
  import opened Tokens
  import opened Grammar
  import opened Canonical
  import Parsing
  import PrintParse

  // ---- values ----

  lemma {:induction false} ValueIsFit(tokens: seq<TokenKind>, i: nat, room: nat)
    ensures ValueAt(tokens, i, room).Some? ==> ValueFits(ValueAt(tokens, i, room).value.node, room)
    decreases |tokens| - i, 0
  {
    hide Peek;
    hide ScalarOf;
    hide ItemsAt;
    hide EntriesAt;
    hide ValueFits;
    hide ItemsFit;
    hide EntriesFit;
    ScalarIsFit(Peek(tokens, i), room);
    if room > 0 && i < |tokens| {
      ItemsAreFit(tokens, i + 1, room - 1, []) by {
        NothingFits(room - 1);
      }
      EntriesAreFit(tokens, i + 1, room - 1, []) by {
        NothingFits(room - 1);
      }
      var items, entries := ItemsAt(tokens, i + 1, room - 1, []), EntriesAt(tokens, i + 1, room - 1, []);
      if items.Some? {
        ContainersFit(items.value.node, [], room);
      }
      if entries.Some? {
        ContainersFit([], entries.value.node, room);
      }
    }
    NothingBehindTheEnd(tokens, i);
  }

  lemma NothingFits(room: nat)
    ensures ItemsFit([], room) && EntriesFit([], room)
  {
  }

  lemma ContainersFit(items: seq<ValueAst>, entries: Entries<ValueAst>, room: nat)
    requires room > 0
    ensures ItemsFit(items, room - 1) ==> ValueFits(ArrayAst(items), room)
    ensures EntriesFit(entries, room - 1) ==> ValueFits(ObjectAst(entries), room)
  {
  }

  lemma ScalarIsFit(kind: TokenKind, room: nat)
    ensures ScalarOf(kind).Some? ==> ValueFits(ScalarOf(kind).value, room)
  {
  }

  lemma NothingBehindTheEnd(tokens: seq<TokenKind>, i: nat)
    ensures i >= |tokens| ==> Peek(tokens, i) == EOF && ScalarOf(EOF).None?
  {
  }

  lemma {:induction false} ItemsAreFit(tokens: seq<TokenKind>, i: nat, room: nat, done: seq<ValueAst>)
    requires ItemsFit(done, room)
    ensures ItemsAt(tokens, i, room, done).Some? ==> ItemsFit(ItemsAt(tokens, i, room, done).value.node, room)
    decreases |tokens| - i, 1
  {
    hide Peek;
    hide ValueAt;
    hide ValueFits;
    ValueIsFit(tokens, i, room);
    var item := ItemAt(tokens, i, room);
    if item.Some? {
      ItemsAreFit(tokens, item.value.next, room, done + [item.value.node]);
    }
  }

  lemma {:induction false} EntriesAreFit(tokens: seq<TokenKind>, i: nat, room: nat, done: Entries<ValueAst>)
    requires EntriesFit(done, room)
    ensures EntriesAt(tokens, i, room, done).Some? ==> EntriesFit(EntriesAt(tokens, i, room, done).value.node, room)
    decreases |tokens| - i, 1
  {
    hide Peek;
    hide KeyText;
    hide EntryAt;
    hide ValueAt;
    hide ValueFits;
    if i < |tokens| {
      ValueIsFit(tokens, i + 2, room);
    }
    Parsing.EntryCases(tokens, i, room);
    var entry := EntryAt(tokens, i, room);
    if entry.Some? {
      EntriesAreFit(tokens, entry.value.next, room, done + [entry.value.node]);
    }
  }

  // ---- requests ----

  lemma {:induction false} RequestHeadersAreFit(tokens: seq<TokenKind>, i: nat, room: nat, done: Entries<ValueAst>)
    requires EntriesFit(done, room)
    ensures RequestHeadersAt(tokens, i, room, done).Some? ==>
              EntriesFit(RequestHeadersAt(tokens, i, room, done).value.node, room)
    decreases |tokens| - i
  {
    hide Peek;
    hide StringAt;
    hide RequestHeaderAt;
    hide ValueAt;
    hide ValueFits;
    ValueIsFit(tokens, i + 2, room);
    Parsing.RequestHeaderCases(tokens, i, room);
    var entry := RequestHeaderAt(tokens, i, room);
    if entry.Some? {
      RequestHeadersAreFit(tokens, entry.value.next, room, done + [entry.value.node]);
    }
  }

  lemma SectionIsFit(tokens: seq<TokenKind>, i: nat, room: nat)
    ensures RequestSectionAt(tokens, i, room).Some? ==> SectionFits(RequestSectionAt(tokens, i, room).value.node, room)
  {
    hide Peek;
    hide RequestHeadersAt;
    hide EntriesAt;
    hide ValueFits;
    RequestHeadersAreFit(tokens, i + 2, room, []);
    if room > 0 {
      EntriesAreFit(tokens, i + 2, room - 1, []);
    }
  }

  lemma {:induction false} SectionsAreFit(tokens: seq<TokenKind>, i: nat, room: nat, done: seq<RequestSection>)
    requires SectionsFit(done, room)
    ensures RequestSectionsAt(tokens, i, room, done).Some? ==>
              SectionsFit(RequestSectionsAt(tokens, i, room, done).value.node, room)
    decreases |tokens| - i
  {
    hide Peek;
    hide RequestSectionAt;
    hide SectionFits;
    SectionIsFit(tokens, i, room);
    var section := RequestSectionAt(tokens, i, room);
    if section.Some? {
      SectionsAreFit(tokens, section.value.next, room, done + [section.value.node]);
    }
  }

  lemma RequestIsFit(tokens: seq<TokenKind>, i: nat, room: nat)
    ensures RequestAt(tokens, i, room).Some? ==> RequestFits(RequestAt(tokens, i, room).value.node, room)
  {
    hide Peek;
    hide RequestSectionsAt;
    hide SectionFits;
    SectionsAreFit(tokens, i + 4, room, []);
  }

  // ---- expectations ----

  lemma {:induction false} AssertionIsFit(tokens: seq<TokenKind>, i: nat, mode: MatchMode, room: nat)
    ensures AssertionAt(tokens, i, mode, room).Some? ==>
              var a := AssertionAt(tokens, i, mode, room).value.node;
              a.mode == mode && AssertionFits(a, room)
    decreases |tokens| - i, 0
  {
    hide Peek;
    hide FieldsAt;
    hide AssertionFits;
    if room > 0 && i < |tokens| {
      FieldsAreFit(tokens, i + 1, room - 1, []);
      var fields := FieldsAt(tokens, i + 1, room - 1, []);
      if fields.Some? {
        FieldsMakeAssertion(ObjectAssertionAst(mode, fields.value.node), room);
      }
    }
    NothingBehindTheEnd(tokens, i);
  }

  lemma FieldsMakeAssertion(a: ObjectAssertionAst, room: nat)
    requires room > 0 && FieldsFit(a.fields, room - 1)
    ensures AssertionFits(a, room)
  {
  }

  lemma {:induction false} FieldsAreFit(tokens: seq<TokenKind>, i: nat, room: nat, done: seq<FieldAssertionAst>)
    requires FieldsFit(done, room)
    ensures FieldsAt(tokens, i, room, done).Some? ==> FieldsFit(FieldsAt(tokens, i, room, done).value.node, room)
    decreases |tokens| - i, 3
  {
    hide Peek;
    hide FieldAt;
    hide FieldFits;
    FieldIsFit(tokens, i, room);
    var field := FieldItemAt(tokens, i, room);
    if field.Some? {
      FieldsAreFit(tokens, field.value.next, room, done + [field.value.node]);
    }
  }

  lemma {:induction false} FieldIsFit(tokens: seq<TokenKind>, i: nat, room: nat)
    ensures FieldAt(tokens, i, room).Some? ==> FieldFits(FieldAt(tokens, i, room).value.node, room)
    decreases |tokens| - i, 2
  {
    hide Peek;
    hide KeyText;
    hide FieldTypeAt;
    hide CaptureAt;
    hide ValueAt;
    hide AssertionAt;
    hide ValueFits;
    hide AssertionFits;
    Parsing.FieldCases(tokens, i, room);
    hide FieldAt;
    var expectedType := FieldTypeAt(tokens, i + 1);
    if expectedType.Some? {
      var c := expectedType.value.next;
      if i < |tokens| {
        assert i < c;
        ComparisonIsFit(tokens, c, expectedType.value.node, room);
      }
      var comparison := ComparisonAt(tokens, c, expectedType.value.node, room);
      if comparison.Some? {
        CaptureIsFit(tokens, comparison.value.next, expectedType.value.node);
      }
    }
    NoKeyBehindTheEnd(tokens, i);
  }

  lemma NoKeyBehindTheEnd(tokens: seq<TokenKind>, i: nat)
    ensures i >= |tokens| ==> KeyText(Peek(tokens, i)).None?
  {
  }

  lemma CaptureIsFit(tokens: seq<TokenKind>, i: nat, expectedType: Option<ExpectedType>)
    ensures CaptureAt(tokens, i, expectedType).Some? && CaptureAt(tokens, i, expectedType).value.node.Some? ==>
              expectedType.Some?
  {
  }

  lemma {:induction false} ComparisonIsFit(
    tokens: seq<TokenKind>, i: nat, expectedType: Option<ExpectedType>, room: nat)
    ensures ComparisonAt(tokens, i, expectedType, room).Some? ==>
              var (expectedValue, nested) := ComparisonAt(tokens, i, expectedType, room).value.node;
              && (expectedValue.Some? ==> ValueFits(expectedValue.value, room) && nested.None?)
              && (nested.Some? ==>
                    && expectedType == Some(TObject) && nested.value.mode == MatchPartial
                    && AssertionFits(nested.value, room))
    decreases |tokens| - i, 1
  {
    hide Peek;
    hide ValueAt;
    hide AssertionAt;
    hide ValueFits;
    hide AssertionFits;
    ValueIsFit(tokens, i + 1, room);
    AssertionIsFit(tokens, i, MatchPartial, room);
  }

  lemma ExpectationSectionIsFit(tokens: seq<TokenKind>, i: nat, room: nat)
    ensures ExpectationSectionAt(tokens, i, room).Some? ==>
              ExpectationSectionFits(ExpectationSectionAt(tokens, i, room).value.node, room)
  {
    hide Peek;
    hide StatusAt;
    hide ResponseHeadersSectionAt;
    hide BodyContentAt;
    hide AssertionFits;
    BodyIsFit(tokens, i + 1, room);
  }

  lemma BodyIsFit(tokens: seq<TokenKind>, i: nat, room: nat)
    ensures BodyContentAt(tokens, i, room).Some? && BodyContentAt(tokens, i, room).value.node.ObjectBody? ==>
              AssertionFits(BodyContentAt(tokens, i, room).value.node.shape, room)
  {
    hide Peek;
    hide BodyTextAt;
    hide AssertionAt;
    hide AssertionFits;
    AssertionIsFit(tokens, i, MatchPartial, room);
    AssertionIsFit(tokens, i + 1, MatchExact, room);
  }

  lemma {:induction false} ExpectationSectionsAreFit(
    tokens: seq<TokenKind>, i: nat, room: nat, done: seq<ExpectationSection>)
    requires ExpectationFits(ExpectationAst(done), room)
    ensures ExpectationSectionsAt(tokens, i, room, done).Some? ==>
              ExpectationFits(ExpectationAst(ExpectationSectionsAt(tokens, i, room, done).value.node), room)
    decreases |tokens| - i
  {
    hide Peek;
    hide ExpectationSectionAt;
    hide ExpectationSectionFits;
    ExpectationSectionIsFit(tokens, i, room);
    var section := ExpectationSectionAt(tokens, i, room);
    if section.Some? {
      ExpectationSectionsAreFit(tokens, section.value.next, room, done + [section.value.node]);
    }
  }

  lemma ExpectationIsFit(tokens: seq<TokenKind>, i: nat, room: nat)
    ensures ExpectationAt(tokens, i, room).Some? ==> ExpectationFits(ExpectationAt(tokens, i, room).value.node, room)
  {
    hide Peek;
    hide ExpectationSectionsAt;
    hide ExpectationSectionFits;
    ExpectationSectionsAreFit(tokens, i + 2, room, []);
  }

  // ---- tests and suites ----

  lemma {:induction false} TestItemsAreFit(
    tokens: seq<TokenKind>, i: nat, room: nat, requests: seq<RequestAst>, expectations: seq<ExpectationAst>)
    requires forall k | 0 <= k < |requests| :: RequestFits(requests[k], room)
    requires forall k | 0 <= k < |expectations| :: ExpectationFits(expectations[k], room)
    ensures TestItemsAt(tokens, i, room, requests, expectations).Some? ==>
              var (r, e) := TestItemsAt(tokens, i, room, requests, expectations).value.node;
              && r != [] && e != []
              && (forall k | 0 <= k < |r| :: RequestFits(r[k], room))
              && forall k | 0 <= k < |e| :: ExpectationFits(e[k], room)
    decreases |tokens| - i
  {
    hide Peek;
    hide RequestAt;
    hide ExpectationAt;
    hide RequestFits;
    hide ExpectationFits;
    RequestIsFit(tokens, i, room);
    ExpectationIsFit(tokens, i, room);
    var request, expectation := RequestAt(tokens, i, room), ExpectationAt(tokens, i, room);
    if request.Some? {
      TestItemsAreFit(tokens, request.value.next, room, requests + [request.value.node], expectations);
    }
    if expectation.Some? {
      TestItemsAreFit(tokens, expectation.value.next, room, requests, expectations + [expectation.value.node]);
    }
  }

  lemma TestIsFit(tokens: seq<TokenKind>, i: nat, room: nat)
    ensures TestAt(tokens, i, room).Some? ==> TestFits(TestAt(tokens, i, room).value.node, room)
  {
    hide Peek;
    hide TestItemsAt;
    hide RequestFits;
    hide ExpectationFits;
    TestItemsAreFit(tokens, i + 3, room, [], []);
  }

  lemma {:induction false} TestsAreFit(tokens: seq<TokenKind>, i: nat, room: nat, done: seq<TestAst>)
    requires TestsFit(done, room)
    ensures TestsAt(tokens, i, room, done).Some? ==> TestsFit(TestsAt(tokens, i, room, done).value.node, room)
    decreases |tokens| - i
  {
    hide Peek;
    hide TestAt;
    hide TestFits;
    TestIsFit(tokens, i, room);
    var test := TestAt(tokens, i, room);
    if test.Some? {
      TestsAreFit(tokens, test.value.next, room, done + [test.value.node]);
    }
  }

  lemma BlockIsFit(tokens: seq<TokenKind>, i: nat, room: nat)
    ensures BlockAt(tokens, i, room).Some? ==>
              && BlockFits(BlockAt(tokens, i, room).value.node, room)
              && (BlockAt(tokens, i, room).value.node.CoreAst? <==> Peek(tokens, i) == CORE)
  {
    hide Peek;
    hide StringAt;
    hide TestAt;
    hide TestsAt;
    hide TestFits;
    TestsAreFit(tokens, i + 2, room, []);
    TestsAreFit(tokens, i + 3, room, []);
    TestIsFit(tokens, i, room);
  }

  lemma {:induction false} BlocksAreFit(
    tokens: seq<TokenKind>, i: nat, room: nat, hasCore: bool, done: seq<BlockAst>)
    requires forall k | 0 <= k < |done| :: BlockFits(done[k], room)
    requires forall j, k | 0 <= j < k < |done| :: !(done[j].CoreAst? && done[k].CoreAst?)
    requires !hasCore ==> forall k | 0 <= k < |done| :: !done[k].CoreAst?
    ensures BlocksAt(tokens, i, room, hasCore, done).Some? ==>
              SuiteFits(SuiteAst(BlocksAt(tokens, i, room, hasCore, done).value), room)
    decreases |tokens| - i
  {
    hide Peek;
    hide BlockAt;
    hide BlockFits;
    BlockIsFit(tokens, i, room);
    var block := BlockAt(tokens, i, room);
    if block.Some? && !(Peek(tokens, i) == CORE && hasCore) {
      BlocksAreFit(tokens, block.value.next, room, hasCore || Peek(tokens, i) == CORE, done + [block.value.node]);
    }
  }

  /** Parsing yields exactly the trees that respect the grammar and the nesting limit. */
  lemma ParsedTreesAreExact(ast: SuiteAst, limit: nat)
    ensures SuiteFits(ast, limit) <==> exists tokens :: SuiteAt(tokens, limit) == Some(ast)
  {
    hide SuiteFits;
    if SuiteFits(ast, limit) {
      PrintParse.ParsingUndoesPrinting(ast, limit, true);
    }
    forall tokens | SuiteAt(tokens, limit) == Some(ast) ensures SuiteFits(ast, limit) {
      AcceptedTreesFit(tokens, limit);
    }
  }

  lemma AcceptedTreesFit(tokens: seq<TokenKind>, limit: nat)
    ensures SuiteAt(tokens, limit).Some? ==> SuiteFits(SuiteAt(tokens, limit).value, limit)
  {
    hide BlocksAt;
    hide SuiteFits;
    BlocksAreFit(tokens, 0, limit, false, []);
  }
}
