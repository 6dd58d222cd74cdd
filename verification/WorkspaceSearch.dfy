/** The search arguments of the workspace search (routers/restore.py). */
module WorkspaceSearch {
  import opened ImapSearch
  import opened ImapWire
  import opened Wrappers

  // ---------------------------------------------------------------------------
  // The sanitizer
  // ---------------------------------------------------------------------------

  /** What `_sanitize_imap_string` takes out: the quote, the backslash and control characters. */
  predicate IsStripped(c: char) {
    IsSpecial(c) || c as int < 32
  }

  function Sanitize(s: string): string {
    if s == "" then "" else (if IsStripped(s[0]) then "" else [s[0]]) + Sanitize(s[1..])
  }

  predicate IsAscii(s: string) {
    forall i :: 0 <= i < |s| ==> s[i] as int <= 127
  }

  predicate NothingStripped(s: string) {
    forall i :: 0 <= i < |s| ==> !IsStripped(s[i])
  }

  lemma ConsMeans(c: char, rest: string)
    ensures IsAscii([c] + rest) <==> c as int <= 127 && IsAscii(rest)
    ensures NothingStripped([c] + rest) <==> !IsStripped(c) && NothingStripped(rest)
  {
    assert ([c] + rest)[0] == c;
    assert forall i :: 0 <= i < |rest| ==> ([c] + rest)[i + 1] == rest[i];
  }

  lemma {:induction false} SanitizeMeans(s: string)
    ensures NothingStripped(Sanitize(s)) && (IsAscii(Sanitize(s)) <==> IsAscii(s))
  {
    if s != "" {
      SanitizeMeans(s[1..]);
      assert s == [s[0]] + s[1..];
      ConsMeans(s[0], s[1..]);
      ConsMeans(s[0], Sanitize(s[1..]));
      assert "" + Sanitize(s[1..]) == Sanitize(s[1..]);
    }
  }

  /** Neither a quote nor a backslash, and not below the space. */
  predicate Stays(c: char) {
    c != '"' && c != '\\' && c >= ' '
  }

  ghost predicate Increasing(at: seq<nat>) {
    forall i, j :: 0 <= i < j < |at| ==> at[i] < at[j]
  }

  ghost predicate Picks(s: string, kept: string, at: seq<nat>) {
    |at| == |kept| && forall i :: 0 <= i < |at| ==> at[i] < |s| && s[at[i]] == kept[i]
  }

  ghost predicate PicksAll(s: string, at: seq<nat>) {
    forall k {:trigger s[k]} :: 0 <= k < |s| ==> (k in at <==> Stays(s[k]))
  }

  /** `kept` is what is left of `s` at exactly the positions of characters that stay, in order. */
  ghost predicate KeptOf(s: string, kept: string, at: seq<nat>) {
    Increasing(at) && Picks(s, kept, at) && PicksAll(s, at)
  }

  function Shifted(at: seq<nat>): (r: seq<nat>)
    ensures |r| == |at| && forall i :: 0 <= i < |at| ==> r[i] == at[i] + 1
  {
    seq(|at|, i requires 0 <= i < |at| => at[i] + 1)
  }

  lemma ShiftedHas(at: seq<nat>, k: nat)
    ensures k in Shifted(at) <==> k > 0 && k - 1 in at
  {
    if k > 0 && k - 1 in at {
      var i :| 0 <= i < |at| && at[i] == k - 1;
      assert Shifted(at)[i] == k;
    }
    if k in Shifted(at) {
      var i :| 0 <= i < |at| && Shifted(at)[i] == k;
      assert at[i] == k - 1;
    }
  }

  lemma PicksLater(s: string, kept: string, at: seq<nat>)
    requires s != "" && Picks(s[1..], kept, at)
    ensures Picks(s, kept, Shifted(at))
  {
    forall i | 0 <= i < |at| ensures at[i] + 1 < |s| && s[at[i] + 1] == kept[i] {
      assert s[1..][at[i]] == s[at[i] + 1];
    }
  }

  lemma PicksAllLater(s: string, at: seq<nat>, k: nat)
    requires s != "" && PicksAll(s[1..], at) && 0 < k < |s|
    ensures k in Shifted(at) <==> Stays(s[k])
  {
    ShiftedHas(at, k);
    assert s[1..][k - 1] == s[k];
  }

  lemma KeptLater(s: string, kept: string, at: seq<nat>)
    requires s != "" && KeptOf(s[1..], kept, at) && !Stays(s[0])
    ensures KeptOf(s, kept, Shifted(at))
  {
    PicksLater(s, kept, at);
    ShiftedHas(at, 0);
    forall k | 0 < k < |s| ensures k in Shifted(at) <==> Stays(s[k]) {
      PicksAllLater(s, at, k);
    }
  }

  lemma KeptFirst(s: string, kept: string, at: seq<nat>)
    requires s != "" && KeptOf(s[1..], kept, at) && Stays(s[0])
    ensures KeptOf(s, [s[0]] + kept, [0] + Shifted(at))
  {
    PicksLater(s, kept, at);
    FirstPicked(s, kept, Shifted(at));
    forall k | 0 <= k < |s| ensures k in [0] + Shifted(at) <==> Stays(s[k]) {
      if k > 0 {
        PicksAllLater(s, at, k);
      }
    }
  }

  lemma FirstPicked(s: string, kept: string, at: seq<nat>)
    requires s != "" && Picks(s, kept, at)
    ensures Picks(s, [s[0]] + kept, [0] + at)
  {
  }

  /** The sanitizer keeps every character from the space on but the quote and the backslash, in order. */
  lemma {:induction false} SanitizeKeeps(s: string) returns (at: seq<nat>)
    ensures KeptOf(s, Sanitize(s), at)
  {
    if s == "" {
      at := [];
    } else {
      var rest := SanitizeKeeps(s[1..]);
      if Stays(s[0]) {
        KeptFirst(s, Sanitize(s[1..]), rest);
        at := [0] + Shifted(rest);
      } else {
        KeptLater(s, Sanitize(s[1..]), rest);
        assert "" + Sanitize(s[1..]) == Sanitize(s[1..]);
        at := Shifted(rest);
      }
    }
  }

  /** What is left stands for itself between quotes exactly when it is ASCII. */
  lemma StrippedIsPlain(s: string)
    requires NothingStripped(s)
    ensures IsPlainText(s) <==> IsAscii(s)
    ensures Fits(Wrapped(s), NoSpecials) && !HasSpecial(s)
  {
  }

  lemma SanitizedReads(s: string)
    ensures Unescaped(Sanitize(s)) == if IsAscii(s) then Some(Sanitize(s)) else None
    ensures Fits(Wrapped(Sanitize(s)), NoSpecials)
  {
    SanitizeMeans(s);
    StrippedIsPlain(Sanitize(s));
    if IsAscii(s) {
      PlainTextReads(Sanitize(s));
    } else if Unescaped(Sanitize(s)).Some? {
      UnescapedText(Sanitize(s));
    }
  }

  // ---------------------------------------------------------------------------
  // What is asked
  // ---------------------------------------------------------------------------

  /** `type_map`. */
  function ModifierOf(name: string): Option<FlagKey> {
    if name == "unseen" then Some(UNSEEN)
    else if name == "flagged" then Some(FLAGGED)
    else if name == "unanswered" then Some(UNANSWERED)
    else None
  }

  /** Each of the three modifiers is written as it is called. */
  lemma ModifiersSpelled(name: string)
    ensures ModifierOf(name).Some? <==> name in ["unseen", "flagged", "unanswered"]
    ensures ModifierOf(name).Some? ==> FlagName(ModifierOf(name).value) == Upper(name)
  {
  }

  datatype FolderAsk = FolderAsk(fields: seq<Section>, query: string, typeFilter: string, searchBody: bool)

  ghost predicate HitFound(t: Truth, ask: FolderAsk, text: string) {
    if ask.searchBody || BODY in ask.fields then t(Contains(TEXT, text))
    else if ask.fields == [] then t(Contains(SUBJECT, text))
    else exists s :: s in ask.fields && t(Contains(s, text))
  }

  /** The messages the workspace search asks for: the sanitized query in one of the fields, and the type. */
  ghost predicate WantsHit(t: Truth, ask: FolderAsk) {
    && (ModifierOf(ask.typeFilter).Some? ==> t(Flag(ModifierOf(ask.typeFilter).value)))
    && HitFound(t, ask, Sanitize(ask.query))
  }

  function Sections(fields: seq<Section>): (r: seq<Field>)
    ensures |r| == |fields| && forall i :: 0 <= i < |r| ==> r[i] == In(fields[i])
  {
    seq(|fields|, i requires 0 <= i < |fields| => In(fields[i]))
  }

  function Chosen(ask: FolderAsk): (fields: seq<Section>)
    ensures fields != []
  {
    if ask.fields == [] then [SUBJECT] else ask.fields
  }

  ghost function HitKey(ask: FolderAsk, text: string): Key {
    if ask.searchBody || BODY in ask.fields then Leaf(Contains(TEXT, text)) else LeftNest(Sections(Chosen(ask)), text)
  }

  ghost function ModifierKeys(ask: FolderAsk): seq<Key> {
    if ModifierOf(ask.typeFilter).Some? then [Leaf(Flag(ModifierOf(ask.typeFilter).value))] else []
  }

  lemma SectionsMean(t: Truth, fields: seq<Section>, text: string)
    ensures AnyField(t, Sections(fields), text) <==> exists s :: s in fields && t(Contains(s, text))
  {
    if AnyField(t, Sections(fields), text) {
      var i :| 0 <= i < |fields| && t(Test(Sections(fields)[i], text));
      assert fields[i] in fields;
    }
    if s :| s in fields && t(Contains(s, text)) {
      var i :| 0 <= i < |fields| && fields[i] == s;
      assert Test(Sections(fields)[i], text) == Contains(s, text);
    }
  }

  lemma HitKeyMeans(t: Truth, ask: FolderAsk, text: string)
    ensures Holds(t, HitKey(ask, text)) <==> HitFound(t, ask, text)
  {
    LeftNestMeans(t, Sections(Chosen(ask)), text);
    SectionsMean(t, Chosen(ask), text);
  }

  lemma HitQueryMeans(t: Truth, ask: FolderAsk)
    ensures HoldAll(t, ModifierKeys(ask) + [HitKey(ask, Sanitize(ask.query))]) <==> WantsHit(t, ask)
  {
    var k := HitKey(ask, Sanitize(ask.query));
    HitKeyMeans(t, ask, Sanitize(ask.query));
    HoldOne(t, k);
    HoldAllSplits(t, ModifierKeys(ask), [k]);
    if ModifierOf(ask.typeFilter).Some? {
      HoldOne(t, Leaf(Flag(ModifierOf(ask.typeFilter).value)));
    }
  }

  // ---------------------------------------------------------------------------
  // A run of OR
  // ---------------------------------------------------------------------------

  function OrArgs(n: nat): seq<Arg> {
    if n == 0 then [] else [Plain("OR")] + OrArgs(n - 1)
  }

  function TestArgs(fields: seq<Section>, word: string): seq<Arg> {
    if fields == [] then []
    else TestArgs(fields[..|fields| - 1], word) + FieldArgs(In(fields[|fields| - 1]), word)
  }

  function OrTokens(n: nat): seq<Token> {
    if n == 0 then [] else [Word(OR)] + OrTokens(n - 1)
  }

  function TestTokens(fields: seq<Section>, text: string): seq<Token> {
    if fields == [] then []
    else TestTokens(fields[..|fields| - 1], text) + Tokens(Leaf(Contains(fields[|fields| - 1], text)))
  }

  lemma {:induction false} OrsRead(n: nat)
    ensures ReadArgs(OrArgs(n)) == Some(OrTokens(n)) && AllFit(OrArgs(n), NoSpecials)
  {
    if n > 0 {
      OrsRead(n - 1);
      ReadOne(Plain("OR"));
      ReadArgsSplit([Plain("OR")], OrArgs(n - 1));
      NameIsAtom(OR);
      FitSplits([Plain("OR")], OrArgs(n - 1), NoSpecials);
    }
  }

  lemma {:induction false} TestsRead(fields: seq<Section>, word: string)
    requires fields != []
    ensures ReadArgs(TestArgs(fields, word)) ==
            if Unescaped(word).None? then None else Some(TestTokens(fields, Unescaped(word).value))
  {
    var init, last := fields[..|fields| - 1], fields[|fields| - 1];
    FieldReads(In(last), word);
    ReadArgsSplit(TestArgs(init, word), FieldArgs(In(last), word));
    if init != [] {
      TestsRead(init, word);
    }
  }

  lemma {:induction false} TestsFit(fields: seq<Section>, word: string)
    requires Fits(Wrapped(word), NoSpecials)
    ensures AllFit(TestArgs(fields, word), NoSpecials)
  {
    if fields != [] {
      var init, last := fields[..|fields| - 1], fields[|fields| - 1];
      TestsFit(init, word);
      FieldFits(In(last), word, NoSpecials);
      FitSplits(TestArgs(init, word), FieldArgs(In(last), word), NoSpecials);
    }
  }

  lemma LeftNestUnfolds(fields: seq<Section>, text: string)
    requires |fields| > 1
    ensures var n := |fields| - 1;
            LeftNest(Sections(fields), text) == Or(LeftNest(Sections(fields[..n]), text), Leaf(Contains(fields[n], text)))
  {
    assert Sections(fields)[..|fields| - 1] == Sections(fields[..|fields| - 1]);
  }

  lemma LeftNestOne(fields: seq<Section>, text: string)
    requires |fields| == 1
    ensures LeftNest(Sections(fields), text) == Leaf(Contains(fields[0], text))
    ensures TestTokens(fields, text) == Tokens(Leaf(Contains(fields[0], text)))
  {
    assert fields[..0] == [];
  }

  /** A run of OR, one fewer than there are tests behind it, is the left-nested OR. */
  lemma {:induction false} RunNests(fields: seq<Section>, text: string)
    requires fields != []
    ensures Tokens(LeftNest(Sections(fields), text)) == OrTokens(|fields| - 1) + TestTokens(fields, text)
  {
    var n := |fields| - 1;
    if n == 0 {
      LeftNestOne(fields, text);
    } else {
      RunNests(fields[..n], text);
      LeftNestUnfolds(fields, text);
      RunGrows(OrTokens(n - 1), TestTokens(fields[..n], text), Tokens(Leaf(Contains(fields[n], text))));
    }
  }

  lemma RunGrows(ors: seq<Token>, tests: seq<Token>, last: seq<Token>)
    ensures [Word(OR)] + (ors + tests) + last == ([Word(OR)] + ors) + (tests + last)
  {
  }

  // ---------------------------------------------------------------------------
  // The line
  // ---------------------------------------------------------------------------

  function ModifierArgs(ask: FolderAsk): seq<Arg> {
    if ModifierOf(ask.typeFilter).Some? then [Plain(FlagName(ModifierOf(ask.typeFilter).value))] else []
  }

  function HitArgs(ask: FolderAsk, word: string): seq<Arg> {
    if ask.searchBody || BODY in ask.fields then [Plain("TEXT"), Wrapped(word)]
    else OrArgs(|Chosen(ask)| - 1) + TestArgs(Chosen(ask), word)
  }

  lemma HitReads(ask: FolderAsk, word: string)
    ensures ReadArgs(HitArgs(ask, word)) ==
            if Unescaped(word).None? then None else Some(Tokens(HitKey(ask, Unescaped(word).value)))
  {
    var fields := Chosen(ask);
    if ask.searchBody || BODY in ask.fields {
      ReadTwo(Plain("TEXT"), Wrapped(word));
    } else {
      OrsRead(|fields| - 1);
      TestsRead(fields, word);
      ReadArgsSplit(OrArgs(|fields| - 1), TestArgs(fields, word));
      if Unescaped(word).Some? {
        RunNests(fields, Unescaped(word).value);
      }
    }
  }

  lemma HitFits(ask: FolderAsk, word: string)
    requires Fits(Wrapped(word), NoSpecials)
    ensures AllFit(HitArgs(ask, word), NoSpecials) && HitArgs(ask, word) != []
  {
    var fields := Chosen(ask);
    SectionIsAtom(TEXT);
    OrsRead(|fields| - 1);
    TestsFit(fields, word);
    FitSplits(OrArgs(|fields| - 1), TestArgs(fields, word), NoSpecials);
  }

  lemma ModifierReads(ask: FolderAsk)
    ensures ReadArgs(ModifierArgs(ask)) == Some(TokensAll(ModifierKeys(ask))) && AllFit(ModifierArgs(ask), NoSpecials)
  {
    if ModifierOf(ask.typeFilter).Some? {
      var f := ModifierOf(ask.typeFilter).value;
      ReadOne(Plain(FlagName(f)));
      TokensOne(Leaf(Flag(f)));
      FlagIsAtom(f);
    }
  }

  lemma HitKeyReadable(ask: FolderAsk, text: string)
    ensures AllReadable(ModifierKeys(ask) + [HitKey(ask, text)])
  {
    NestsReadable(Sections(Chosen(ask)), text);
    ReadableSplits(ModifierKeys(ask), HitKey(ask, text));
  }

  /** What the server makes of the line. */
  lemma LineReadsAs(ask: FolderAsk)
    ensures var q := Sanitize(ask.query);
            Read(Join(Shown(ModifierArgs(ask) + HitArgs(ask, q)))) ==
            if IsAscii(ask.query) then Some(ModifierKeys(ask) + [HitKey(ask, q)]) else None
  {
    var q, m := Sanitize(ask.query), ModifierArgs(ask);
    SanitizedReads(ask.query);
    ModifierReads(ask);
    HitFits(ask, q);
    FitSplits(m, HitArgs(ask, q), NoSpecials);
    LineReads(m + HitArgs(ask, q), NoSpecials);
    HitReads(ask, q);
    ReadArgsSplit(m, HitArgs(ask, q));
    if IsAscii(ask.query) {
      HitTokens(ask, q);
    }
  }

  lemma HitTokens(ask: FolderAsk, text: string)
    ensures ParseKeys(TokensAll(ModifierKeys(ask)) + Tokens(HitKey(ask, text))) == Some(ModifierKeys(ask) + [HitKey(ask, text)])
  {
    var ks := ModifierKeys(ask) + [HitKey(ask, text)];
    HitKeyReadable(ask, text);
    TokensSplit(ModifierKeys(ask), HitKey(ask, text), []);
    KeysRead(ks, []);
    assert Tokens(HitKey(ask, text)) + [] == Tokens(HitKey(ask, text));
    assert ks + [] == ks;
  }

  /** The line asks for exactly what was wanted, unless it cannot be read. */
  ghost predicate Asks(line: string, ask: FolderAsk) {
    && (Read(line).Some? <==> IsAscii(ask.query))
    && (IsAscii(ask.query) ==> forall t: Truth :: HoldAll(t, Read(line).value) <==> WantsHit(t, ask))
  }

  lemma LineAsks(ask: FolderAsk)
    ensures Asks(Join(Shown(ModifierArgs(ask) + HitArgs(ask, Sanitize(ask.query)))), ask)
  {
    LineReadsAs(ask);
    forall t: Truth ensures HoldAll(t, ModifierKeys(ask) + [HitKey(ask, Sanitize(ask.query))]) <==> WantsHit(t, ask) {
      HitQueryMeans(t, ask);
    }
  }

  /**
   * The arguments of `_search_namespace_for_query`: whatever characters the query has, the
   * sanitized text is asked for exactly, unless one of them is not ASCII; then nothing can be read.
   */
  method SearchArgs(ask: FolderAsk) returns (args: seq<string>)
    ensures Asks(Join(args), ask)
  {
    args := [];
    if ModifierOf(ask.typeFilter).Some? {
      args := args + [FlagName(ModifierOf(ask.typeFilter).value)];
    }
    args := AddHit(args, ask, Sanitize(ask.query));
    ShownSplit(ModifierArgs(ask), HitArgs(ask, Sanitize(ask.query)));
    LineAsks(ask);
  }

  method AddHit(start: seq<string>, ask: FolderAsk, quoted: string) returns (args: seq<string>)
    ensures args == start + Shown(HitArgs(ask, quoted))
  {
    var fields := ask.fields;
    if fields == [] {
      fields := [SUBJECT];
    }
    if ask.searchBody || BODY in fields {
      TextShown(quoted);
      args := start + ["TEXT", [QUOTE] + quoted + [QUOTE]];
    } else {
      args := AddOrs(start, |fields| - 1);
      args := AddTests(args, fields, quoted);
      RunShown(start, fields, quoted);
    }
  }

  lemma TextShown(word: string)
    ensures Shown([Plain("TEXT"), Wrapped(word)]) == ["TEXT", [QUOTE] + word + [QUOTE]]
  {
  }

  lemma RunShown(start: seq<string>, fields: seq<Section>, word: string)
    requires fields != []
    ensures start + Shown(OrArgs(|fields| - 1)) + Shown(TestArgs(fields, word))
            == start + Shown(OrArgs(|fields| - 1) + TestArgs(fields, word))
  {
    ShownSplit(OrArgs(|fields| - 1), TestArgs(fields, word));
  }

  lemma {:induction false} OrsAppend(n: nat)
    ensures OrArgs(n) + [Plain("OR")] == OrArgs(n + 1)
  {
    if n > 0 {
      OrsAppend(n - 1);
    }
  }

  lemma OneMoreOr(n: nat)
    ensures Shown(OrArgs(n)) + ["OR"] == Shown(OrArgs(n + 1))
  {
    OrsAppend(n);
    ShownSplit(OrArgs(n), [Plain("OR")]);
  }

  lemma FieldShown(s: Section, word: string)
    ensures Shown(FieldArgs(In(s), word)) == [SectionName(s), [QUOTE] + word + [QUOTE]]
  {
  }

  lemma OneMoreTest(fields: seq<Section>, i: nat, word: string)
    requires i < |fields|
    ensures Shown(TestArgs(fields[..i], word)) + [SectionName(fields[i]), [QUOTE] + word + [QUOTE]] == Shown(TestArgs(fields[..i + 1], word))
  {
    assert fields[..i + 1][..i] == fields[..i];
    FieldShown(fields[i], word);
    ShownSplit(TestArgs(fields[..i], word), FieldArgs(In(fields[i]), word));
  }

  method AddOrs(start: seq<string>, n: nat) returns (args: seq<string>)
    ensures args == start + Shown(OrArgs(n))
  {
    args := start;
    for i := 0 to n
      invariant args == start + Shown(OrArgs(i))
    {
      OneMoreOr(i);
      args := args + ["OR"];
    }
  }

  method AddTests(start: seq<string>, fields: seq<Section>, word: string) returns (args: seq<string>)
    ensures args == start + Shown(TestArgs(fields, word))
  {
    args := start;
    for i := 0 to |fields|
      invariant args == start + Shown(TestArgs(fields[..i], word))
    {
      OneMoreTest(fields, i, word);
      args := args + [SectionName(fields[i]), [QUOTE] + word + [QUOTE]];
    }
    assert fields[..|fields|] == fields;
  }
}
