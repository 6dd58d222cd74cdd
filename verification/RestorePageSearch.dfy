/** The search criteria of the restore page (routers/ui_restore.py). */
module RestorePageSearch {
  import opened Decimal
  import opened ImapSearch
  import opened ImapWire
  import opened Wrappers

  // ---------------------------------------------------------------------------
  // Splitting the query
  // ---------------------------------------------------------------------------

  /** `str.isspace`, as `str.split` uses it. */
  predicate IsSpace(c: char) {
    var n := c as int;
    || 9 <= n <= 13 || 28 <= n <= 32 || n == 0x85 || n == 0xA0 || n == 0x1680 || 0x2000 <= n <= 0x200A
    || n == 0x2028 || n == 0x2029 || n == 0x202F || n == 0x205F || n == 0x3000
  }

  function WordLength(s: string): (n: nat)
    ensures n <= |s|
  {
    if s == "" || IsSpace(s[0]) then 0 else 1 + WordLength(s[1..])
  }

  /** `str.split`: the longest runs without whitespace. */
  function Split(s: string): seq<string>
    decreases |s|
  {
    if s == "" then []
    else if IsSpace(s[0]) then Split(s[1..])
    else
      var n := WordLength(s);
      [s[..n]] + Split(s[n..])
  }

  predicate IsWord(w: string) {
    w != "" && forall i :: 0 <= i < |w| ==> !IsSpace(w[i])
  }

  predicate AllWords(words: seq<string>) {
    forall i :: 0 <= i < |words| ==> IsWord(words[i])
  }

  /** Nothing in the query but whitespace and ASCII characters other than NUL, the quote and the backslash. */
  predicate Sendable(s: string) {
    forall i :: 0 <= i < |s| ==> IsSpace(s[i]) || (IsChar(s[i]) && !IsSpecial(s[i]))
  }

  predicate AllPlain(words: seq<string>) {
    forall i :: 0 <= i < |words| ==> IsPlainText(words[i])
  }

  lemma {:induction false} WordLengthMeans(s: string)
    ensures forall i :: 0 <= i < WordLength(s) ==> !IsSpace(s[i])
    ensures WordLength(s) < |s| ==> IsSpace(s[WordLength(s)])
  {
    if s != "" && !IsSpace(s[0]) {
      WordLengthMeans(s[1..]);
      assert forall i :: 0 < i < WordLength(s) ==> s[i] == s[1..][i - 1];
    }
  }

  lemma SendableSplits(a: string, b: string)
    ensures Sendable(a + b) <==> Sendable(a) && Sendable(b)
  {
    assert forall i :: 0 <= i < |a| ==> (a + b)[i] == a[i];
    assert forall i :: 0 <= i < |b| ==> (a + b)[|a| + i] == b[i];
  }

  lemma WordSendable(w: string)
    requires IsWord(w)
    ensures Sendable(w) <==> IsPlainText(w)
  {
  }

  /** The words are words, and they are all plain exactly when the query is sendable. */
  lemma {:induction false} SplitMeans(s: string)
    ensures AllWords(Split(s)) && (AllPlain(Split(s)) <==> Sendable(s))
    decreases |s|
  {
    if s != "" && IsSpace(s[0]) {
      SplitMeans(s[1..]);
      assert s == [s[0]] + s[1..];
      SendableSplits([s[0]], s[1..]);
    } else if s != "" {
      var n := WordLength(s);
      WordLengthMeans(s);
      SplitMeans(s[n..]);
      assert s == s[..n] + s[n..];
      SendableSplits(s[..n], s[n..]);
      assert IsWord(s[..n]) by { assert forall i :: 0 <= i < n ==> s[..n][i] == s[i]; }
      WordSendable(s[..n]);
      ConsPlain(s[..n], Split(s[n..]));
    }
  }

  lemma ConsPlain(w: string, words: seq<string>)
    ensures AllPlain([w] + words) <==> IsPlainText(w) && AllPlain(words)
    ensures AllWords([w] + words) <==> IsWord(w) && AllWords(words)
  {
    assert ([w] + words)[0] == w;
    assert forall i :: 0 <= i < |words| ==> ([w] + words)[i + 1] == words[i];
  }

  /** A word ends where whitespace follows. */
  lemma {:induction false} WordEnds(a: string, c: char, b: string)
    requires IsSpace(c)
    ensures WordLength(a + [c] + b) == WordLength(a)
  {
    if a != "" {
      WordEnds(a[1..], c, b);
      assert (a + [c] + b)[1..] == a[1..] + [c] + b;
    }
  }

  /** Whitespace separates: the words on its left, then the words on its right. */
  lemma {:induction false} SplitAtSpace(a: string, c: char, b: string)
    requires IsSpace(c)
    ensures Split(a + [c] + b) == Split(a) + Split(b)
    ensures Split("") == []
    decreases |a|
  {
    var s := a + [c] + b;
    if a == "" {
      assert s[0] == c && s[1..] == b;
    } else if IsSpace(a[0]) {
      assert s[0] == a[0] && s[1..] == a[1..] + [c] + b;
      SplitAtSpace(a[1..], c, b);
    } else {
      var n := WordLength(a);
      WordEnds(a, c, b);
      assert s[0] == a[0] && s[..n] == a[..n] && s[n..] == a[n..] + [c] + b;
      SplitAtSpace(a[n..], c, b);
    }
  }

  /** Which ASCII characters separate words. */
  lemma AsciiSpaces(c: char)
    requires c as int < 128
    ensures IsSpace(c) <==> c in " \t\n\r" || c as int in {0x0B, 0x0C, 0x1C, 0x1D, 0x1E, 0x1F}
  {
    assert c in " \t\n\r" <==> c == ' ' || c == '\t' || c == '\n' || c == '\r';
  }

  // ---------------------------------------------------------------------------
  // What is asked
  // ---------------------------------------------------------------------------

  /** `_FIELD_MAP`. */
  function FieldOf(name: string): Option<Field> {
    if name == "subject" then Some(In(SUBJECT))
    else if name == "from" then Some(In(FROM))
    else if name == "reply_to" then Some(InHeader("Reply-To"))
    else if name == "followup_to" then Some(InHeader("Followup-To"))
    else if name == "to" then Some(In(TO))
    else if name == "cc" then Some(In(CC))
    else if name == "bcc" then Some(In(BCC))
    else if name == "body" then Some(In(BODY))
    else if name == "text" then Some(In(TEXT))
    else None
  }

  /** `_TYPE_MAP`. */
  function TypeOf(name: string): Option<Crit> {
    if name == "unseen" then Some(Flag(UNSEEN))
    else if name == "flagged" then Some(Flag(FLAGGED))
    else if name == "unanswered" then Some(Flag(UNANSWERED))
    else if name == "deleted" then Some(Flag(DELETED))
    else if name == "undeleted" then Some(Flag(UNDELETED))
    else if name == "attachment" then Some(HasHeader("Content-Type", "multipart/mixed"))
    else None
  }

  const FIELDS := ["subject", "from", "to", "cc", "bcc", "body", "text", "reply_to", "followup_to"]
  const FLAG_TYPES := ["unseen", "flagged", "unanswered", "deleted", "undeleted"]

  lemma FieldsKnown(name: string)
    ensures FieldOf(name).Some? <==> name in FIELDS
  {
  }

  /** The field searches what it is called. */
  ghost predicate Spelled(name: string) {
    match FieldOf(name)
    case None => false
    case Some(In(s)) => SectionName(s) == Upper(name)
    case Some(InHeader(n)) => Upper(n) == Upper(name)
  }

  lemma AddressesSpelled(name: string)
    requires name in {"from", "to", "cc", "bcc"}
    ensures Spelled(name)
  {
  }

  lemma TextsSpelled(name: string)
    requires name in {"subject", "body", "text"}
    ensures Spelled(name)
  {
  }

  lemma HeadersSpelled(name: string)
    requires name in {"reply_to", "followup_to"}
    ensures Spelled(name)
  {
  }

  /** Each of the nine fields searches what it is called, and nothing else is a field. */
  lemma FieldsSpelled(name: string)
    ensures FieldOf(name).Some? <==> name in FIELDS
    ensures FieldOf(name).Some? <==> Spelled(name)
  {
    FieldsKnown(name);
    if name in {"from", "to", "cc", "bcc"} {
      AddressesSpelled(name);
    } else if name in {"subject", "body", "text"} {
      TextsSpelled(name);
    } else if name in FIELDS {
      HeadersSpelled(name);
    }
  }

  /** Each of the five flags is written as it is called. */
  lemma TypesSpelled(name: string)
    ensures name in FLAG_TYPES ==> TypeStrings(name) == [Upper(name)]
    ensures TypeStrings(name) == [] <==> name !in FLAG_TYPES && name != "attachment"
  {
    if name in FLAG_TYPES {
      assert Upper(name) == TypeStrings(name)[0];
    }
  }

  datatype Ask = Ask(query: string, fields: seq<string>, typeFilter: string, since: Option<Calendar>, before: Option<Calendar>)

  /** `word` is found: anywhere if "text" or nothing known was chosen, otherwise in a chosen field. */
  ghost predicate WordFound(t: Truth, fields: seq<string>, word: string) {
    if "text" in fields || (forall f :: f in fields ==> FieldOf(f).None?) then t(Contains(TEXT, word))
    else exists f :: f in fields && FieldOf(f).Some? && t(Test(FieldOf(f).value, word))
  }

  ghost predicate AllFound(t: Truth, fields: seq<string>, words: seq<string>) {
    forall i :: 0 <= i < |words| ==> WordFound(t, fields, words[i])
  }

  ghost predicate WantsWords(t: Truth, ask: Ask, words: seq<string>) {
    && AllFound(t, ask.fields, words)
    && (TypeOf(ask.typeFilter).Some? ==> t(TypeOf(ask.typeFilter).value))
    && (ask.since.Some? ==> t(Dated(SINCE, ask.since.value)))
    && (ask.before.Some? ==> t(Dated(BEFORE, ask.before.value)))
  }

  /** The messages the restore page asks for. */
  ghost predicate Wants(t: Truth, ask: Ask) {
    WantsWords(t, ask, Split(ask.query))
  }

  /** Every date asked for has a four-digit year. */
  predicate Datable(ask: Ask) {
    (ask.since.Some? ==> ask.since.value.year >= 1000) && (ask.before.Some? ==> ask.before.value.year >= 1000)
  }

  /** The line reads completely, as a query for exactly the messages asked for. */
  ghost predicate Compiles(line: string, ask: Ask) {
    && Read(line).Some?
    && forall t: Truth :: HoldAll(t, Read(line).value) <==> Wants(t, ask)
  }

  function KnownFields(fields: seq<string>): seq<Field> {
    if fields == [] then []
    else
      var init := KnownFields(fields[..|fields| - 1]);
      var f := FieldOf(fields[|fields| - 1]);
      if f.Some? then init + [f.value] else init
  }

  function Searched(fields: seq<string>): (chosen: seq<Field>)
    ensures chosen != []
  {
    var known := KnownFields(if "text" in fields then ["text"] else fields);
    if known == [] then [In(TEXT)] else known
  }

  ghost function WordKeys(fields: seq<Field>, words: seq<string>): seq<Key>
    requires fields != []
  {
    if words == [] then [] else WordKeys(fields, words[..|words| - 1]) + [RightNest(fields, words[|words| - 1])]
  }

  ghost function TypeKeys(name: string): seq<Key> {
    if TypeOf(name).Some? then [Leaf(TypeOf(name).value)] else []
  }

  ghost function DateKeys(rel: DateKey, d: Option<Calendar>): seq<Key> {
    if d.Some? then [Leaf(Dated(rel, d.value))] else []
  }

  /** The keys for the given words, and the type and dates of `ask`. */
  ghost function Narrowed(ask: Ask, words: seq<string>): seq<Key> {
    WordKeys(Searched(ask.fields), words) + TypeKeys(ask.typeFilter) + DateKeys(SINCE, ask.since) + DateKeys(BEFORE, ask.before)
  }

  ghost function Query(ask: Ask, words: seq<string>): seq<Key> {
    if Narrowed(ask, words) == [] then [Leaf(Flag(ALL))] else Narrowed(ask, words)
  }

  // ---------------------------------------------------------------------------
  // What a query means
  // ---------------------------------------------------------------------------

  lemma {:induction false} KnownFieldsMean(fields: seq<string>, f: Field)
    ensures f in KnownFields(fields) <==> exists n :: n in fields && FieldOf(n) == Some(f)
  {
    if fields != [] {
      var init, last := fields[..|fields| - 1], fields[|fields| - 1];
      KnownFieldsMean(init, f);
      assert fields == init + [last];
    }
  }

  lemma KnownMeans(t: Truth, fields: seq<string>, word: string)
    ensures AnyField(t, KnownFields(fields), word)
            <==> exists f :: f in fields && FieldOf(f).Some? && t(Test(FieldOf(f).value, word))
  {
    var known := KnownFields(fields);
    if AnyField(t, known, word) {
      var i :| 0 <= i < |known| && t(Test(known[i], word));
      KnownFieldsMean(fields, known[i]);
    }
    if f :| f in fields && FieldOf(f).Some? && t(Test(FieldOf(f).value, word)) {
      KnownFieldsMean(fields, FieldOf(f).value);
      var i :| 0 <= i < |known| && known[i] == FieldOf(f).value;
    }
  }

  lemma NothingKnown(fields: seq<string>)
    ensures KnownFields(fields) == [] <==> forall f :: f in fields ==> FieldOf(f).None?
  {
    if KnownFields(fields) != [] {
      KnownFieldsMean(fields, KnownFields(fields)[0]);
    }
    if f :| f in fields && FieldOf(f).Some? {
      KnownFieldsMean(fields, FieldOf(f).value);
    }
  }

  lemma SearchedMeans(t: Truth, fields: seq<string>, word: string)
    ensures AnyField(t, Searched(fields), word) <==> WordFound(t, fields, word)
  {
    NothingKnown(fields);
    KnownMeans(t, fields, word);
    if "text" in fields {
      assert ["text"][..0] == [];
      assert Searched(fields) == [In(TEXT)];
    }
    if Searched(fields) == [In(TEXT)] {
      assert Test(Searched(fields)[0], word) == Contains(TEXT, word);
    }
  }

  lemma AllFoundSplits(t: Truth, fields: seq<string>, words: seq<string>, word: string)
    ensures AllFound(t, fields, words + [word]) <==> AllFound(t, fields, words) && WordFound(t, fields, word)
  {
    assert (words + [word])[|words|] == word;
    assert forall i :: 0 <= i < |words| ==> (words + [word])[i] == words[i];
  }

  lemma {:induction false} WordKeysMean(t: Truth, fields: seq<string>, words: seq<string>)
    ensures HoldAll(t, WordKeys(Searched(fields), words)) <==> AllFound(t, fields, words)
  {
    if words != [] {
      var init, last := words[..|words| - 1], words[|words| - 1];
      WordKeysMean(t, fields, init);
      RightNestMeans(t, Searched(fields), last);
      SearchedMeans(t, fields, last);
      HoldOne(t, RightNest(Searched(fields), last));
      HoldAllSplits(t, WordKeys(Searched(fields), init), [RightNest(Searched(fields), last)]);
      AllFoundSplits(t, fields, init, last);
      assert words == init + [last];
    }
  }

  lemma DateKeysMean(t: Truth, rel: DateKey, d: Option<Calendar>)
    ensures HoldAll(t, DateKeys(rel, d)) <==> (d.Some? ==> t(Dated(rel, d.value)))
  {
    if d.Some? {
      HoldOne(t, Leaf(Dated(rel, d.value)));
    }
  }

  lemma TypeKeysMean(t: Truth, name: string)
    ensures HoldAll(t, TypeKeys(name)) <==> (TypeOf(name).Some? ==> t(TypeOf(name).value))
  {
    if TypeOf(name).Some? {
      HoldOne(t, Leaf(TypeOf(name).value));
    }
  }

  /** AND over the words of OR over the fields, AND the type, AND the dates. */
  lemma QueryMeans(t: Truth, ask: Ask, words: seq<string>)
    ensures HoldAll(t, Query(ask, words)) <==> WantsWords(t, ask, words)
  {
    var w, y, s, b := WordKeys(Searched(ask.fields), words), TypeKeys(ask.typeFilter), DateKeys(SINCE, ask.since), DateKeys(BEFORE, ask.before);
    WordKeysMean(t, ask.fields, words);
    TypeKeysMean(t, ask.typeFilter);
    DateKeysMean(t, SINCE, ask.since);
    DateKeysMean(t, BEFORE, ask.before);
    HoldAllSplits(t, w, y);
    HoldAllSplits(t, w + y, s);
    HoldAllSplits(t, w + y + s, b);
    if Narrowed(ask, words) == [] {
      HoldOne(t, Leaf(Flag(ALL)));
    }
  }

  // ---------------------------------------------------------------------------
  // The arguments, and what they read as
  // ---------------------------------------------------------------------------

  function TypeArgs(name: string): seq<Arg> {
    match TypeOf(name)
    case None => []
    case Some(Flag(f)) => [Plain(FlagName(f))]
    case Some(HasHeader(n, x)) => [Plain("HEADER"), Plain(n), Plain(x)]
    case Some(_) => []
  }

  function DateArgs(rel: DateKey, d: Option<Calendar>): seq<Arg> {
    if d.Some? then [Plain(DateName(rel)), Plain(ToImapDate(d.value))] else []
  }

  function WordArgs(fields: seq<Field>, words: seq<string>): seq<Arg>
    requires fields != []
  {
    if words == [] then [] else WordArgs(fields, words[..|words| - 1]) + GroupArgs(fields, words[|words| - 1])
  }

  function NarrowedArgs(ask: Ask): seq<Arg> {
    WordArgs(Searched(ask.fields), Split(ask.query)) + TypeArgs(ask.typeFilter) + DateArgs(SINCE, ask.since) + DateArgs(BEFORE, ask.before)
  }

  function LineArgs(ask: Ask): seq<Arg> {
    if NarrowedArgs(ask) == [] then [Plain("ALL")] else NarrowedArgs(ask)
  }

  ghost predicate AllReadableWords(words: seq<string>) {
    forall i :: 0 <= i < |words| ==> Unescaped(words[i]).Some?
  }

  /** The texts the words stand for. */
  ghost function Texts(words: seq<string>): (texts: seq<string>)
    requires AllReadableWords(words)
    ensures |texts| == |words| && forall i :: 0 <= i < |words| ==> texts[i] == Unescaped(words[i]).value
  {
    seq(|words|, i requires 0 <= i < |words| => Unescaped(words[i]).value)
  }

  lemma TextsGrow(words: seq<string>, word: string)
    ensures AllReadableWords(words + [word]) <==> AllReadableWords(words) && Unescaped(word).Some?
    ensures AllReadableWords(words + [word]) ==> Texts(words + [word]) == Texts(words) + [Unescaped(word).value]
  {
    assert (words + [word])[|words|] == word;
    assert forall i :: 0 <= i < |words| ==> (words + [word])[i] == words[i];
  }

  lemma KeysGrow(fields: seq<Field>, texts: seq<string>, text: string)
    requires fields != []
    ensures TokensAll(WordKeys(fields, texts + [text])) == TokensAll(WordKeys(fields, texts)) + Tokens(RightNest(fields, text))
  {
    assert (texts + [text])[..|texts|] == texts;
    var keys, k := WordKeys(fields, texts), RightNest(fields, text);
    assert (keys + [k])[..|keys|] == keys;
  }

  lemma {:induction false} WordsRead(fields: seq<Field>, words: seq<string>)
    requires fields != []
    ensures ReadArgs(WordArgs(fields, words)) ==
            if AllReadableWords(words) then Some(TokensAll(WordKeys(fields, Texts(words)))) else None
  {
    if words != [] {
      var init, last := words[..|words| - 1], words[|words| - 1];
      assert words == init + [last];
      WordsRead(fields, init);
      GroupReads(fields, last);
      ReadArgsSplit(WordArgs(fields, init), GroupArgs(fields, last));
      TextsGrow(init, last);
      if AllReadableWords(words) {
        KeysGrow(fields, Texts(init), Unescaped(last).value);
      }
    }
  }

  lemma TypeReads(name: string, rest: seq<Token>)
    ensures ReadArgs(TypeArgs(name)).Some?
    ensures ParseKeys(ReadArgs(TypeArgs(name)).value + rest) == Prepend(TypeKeys(name), ParseKeys(rest))
  {
    match TypeOf(name) {
      case None =>
        assert [] + rest == rest;
        PrependAll([], Leaf(Flag(ALL)), ParseKeys(rest));
      case Some(Flag(f)) =>
        ReadOne(Plain(FlagName(f)));
        NameReads(FlagWord(f));
        KeysParse([Word(FlagWord(f))] + rest, Leaf(Flag(f)), rest);
      case Some(HasHeader(n, x)) =>
        ReadThree(Plain("HEADER"), Plain(n), Plain(x));
        NameReads(HEADER);
        KeysParse([Word(HEADER), Atom(n), Atom(x)] + rest, Leaf(HasHeader(n, x)), rest);
    }
  }

  lemma DateReadsAs(rel: DateKey, d: Option<Calendar>)
    ensures ReadArgs(DateArgs(rel, d)) == Some(TokensAll(DateKeys(rel, d)))
  {
    if d.Some? {
      ReadTwo(Plain(DateName(rel)), Plain(ToImapDate(d.value)));
      TokensOne(Leaf(Dated(rel, d.value)));
    }
  }

  lemma DateKeysReadable(rel: DateKey, d: Option<Calendar>)
    ensures AllReadable(DateKeys(rel, d)) <==> (d.Some? ==> d.value.year >= 1000)
  {
    if d.Some? {
      assert DateKeys(rel, d)[0] == Leaf(Dated(rel, d.value));
      assert Readable(DateKeys(rel, d)[0]) <==> d.value.year >= 1000;
    }
  }

  lemma {:induction false} WordKeysReadable(fields: seq<Field>, words: seq<string>)
    requires fields != []
    ensures AllReadable(WordKeys(fields, words))
  {
    if words != [] {
      WordKeysReadable(fields, words[..|words| - 1]);
      NestsReadable(fields, words[|words| - 1]);
      ReadableSplits(WordKeys(fields, words[..|words| - 1]), RightNest(fields, words[|words| - 1]));
    }
  }

  lemma DatesParse(ask: Ask)
    ensures ParseKeys(TokensAll(DateKeys(SINCE, ask.since)) + TokensAll(DateKeys(BEFORE, ask.before))) ==
            if Datable(ask) then Some(DateKeys(SINCE, ask.since) + DateKeys(BEFORE, ask.before)) else None
  {
    var s, b := DateKeys(SINCE, ask.since), DateKeys(BEFORE, ask.before);
    DateKeysReadable(SINCE, ask.since);
    DateKeysReadable(BEFORE, ask.before);
    KeysRead(b, []);
    assert TokensAll(b) + [] == TokensAll(b) && b + [] == b;
    KeysRead(s, TokensAll(b));
  }

  /** All the tokens together make up the query, unless a date is in the way. */
  lemma NarrowedParses(ask: Ask, words: seq<string>)
    requires ReadArgs(TypeArgs(ask.typeFilter)).Some?
    ensures ParseKeys(TokensAll(WordKeys(Searched(ask.fields), words)) + (ReadArgs(TypeArgs(ask.typeFilter)).value
                      + (TokensAll(DateKeys(SINCE, ask.since)) + TokensAll(DateKeys(BEFORE, ask.before))))) ==
            if Datable(ask) then Some(Narrowed(ask, words)) else None
  {
    var dates := TokensAll(DateKeys(SINCE, ask.since)) + TokensAll(DateKeys(BEFORE, ask.before));
    DatesParse(ask);
    TypeReads(ask.typeFilter, dates);
    WordKeysReadable(Searched(ask.fields), words);
    KeysRead(WordKeys(Searched(ask.fields), words), ReadArgs(TypeArgs(ask.typeFilter)).value + dates);
    PrependFour(WordKeys(Searched(ask.fields), words), TypeKeys(ask.typeFilter), DateKeys(SINCE, ask.since), DateKeys(BEFORE, ask.before), Datable(ask));
  }

  lemma PrependFour(w: seq<Key>, y: seq<Key>, s: seq<Key>, b: seq<Key>, datable: bool)
    ensures Prepend(w, Prepend(y, if datable then Some(s + b) else None)) == if datable then Some(w + y + s + b) else None
  {
    assert w + (y + (s + b)) == w + y + s + b;
  }

  lemma NarrowedReads(ask: Ask)
    ensures var words := Split(ask.query);
            ReadArgs(NarrowedArgs(ask)).Some? <==> AllReadableWords(words)
    ensures var words := Split(ask.query);
            AllReadableWords(words) ==>
              ParseKeys(ReadArgs(NarrowedArgs(ask)).value) == if Datable(ask) then Some(Narrowed(ask, Texts(words))) else None
  {
    var words := Split(ask.query);
    WordsRead(Searched(ask.fields), words);
    TypeReads(ask.typeFilter, []);
    DateReadsAs(SINCE, ask.since);
    DateReadsAs(BEFORE, ask.before);
    ReadFour(WordArgs(Searched(ask.fields), words), TypeArgs(ask.typeFilter), DateArgs(SINCE, ask.since), DateArgs(BEFORE, ask.before));
    if AllReadableWords(words) {
      NarrowedParses(ask, Texts(words));
    }
  }

  // ---------------------------------------------------------------------------
  // Every argument fits on the line
  // ---------------------------------------------------------------------------

  lemma AtomsJoin(a: string, b: string)
    requires IsAtom(a) && IsAtom(b)
    ensures IsAtom(a + b)
  {
  }

  lemma DateIsAtom(d: Date)
    ensures IsAtom(ToImapDate(d))
  {
    DigitsAreAtom(d.day);
    DigitsAreAtom(d.year);
    assert IsAtom("-") && IsAtom(MonthName(d.month));
    AtomsJoin(Dec(d.day), "-");
    AtomsJoin(Dec(d.day) + "-", MonthName(d.month));
    AtomsJoin(Dec(d.day) + "-" + MonthName(d.month), "-");
    AtomsJoin(Dec(d.day) + "-" + MonthName(d.month) + "-", Dec(d.year));
  }

  lemma DigitsAreAtom(n: nat)
    ensures IsAtom(Dec(n))
  {
    ValueOfDec(n);
  }

  ghost predicate AtomicFields(fields: seq<Field>) {
    forall i :: 0 <= i < |fields| ==> fields[i].InHeader? ==> IsAtom(fields[i].name)
  }

  lemma FieldIsAtomic(name: string)
    ensures FieldOf(name).Some? && FieldOf(name).value.InHeader? ==> IsAtom(FieldOf(name).value.name)
  {
  }

  lemma {:induction false} KnownAreAtomic(fields: seq<string>)
    ensures AtomicFields(KnownFields(fields))
  {
    if fields != [] {
      KnownAreAtomic(fields[..|fields| - 1]);
      FieldIsAtomic(fields[|fields| - 1]);
    }
  }

  lemma SearchedAreAtomic(fields: seq<string>)
    ensures AtomicFields(Searched(fields))
  {
    KnownAreAtomic(if "text" in fields then ["text"] else fields);
  }

  lemma {:induction false} WordArgsFit(fields: seq<Field>, words: seq<string>)
    requires fields != [] && AtomicFields(fields) && AllWords(words)
    ensures AllFit(WordArgs(fields, words), Words)
  {
    if words != [] {
      WordArgsFit(fields, words[..|words| - 1]);
      WordFits(words[|words| - 1]);
      GroupFits(fields, words[|words| - 1], Words);
      FitSplits(WordArgs(fields, words[..|words| - 1]), GroupArgs(fields, words[|words| - 1]), Words);
    }
  }

  lemma WordFits(w: string)
    requires IsWord(w)
    ensures Fits(Wrapped(w), Words)
  {
    assert IsSpace(' ');
  }

  lemma HeaderIsAtomic(name: string)
    ensures TypeOf(name).Some? && TypeOf(name).value.HasHeader? ==> IsAtom(TypeOf(name).value.name) && IsAtom(TypeOf(name).value.text)
  {
    assert IsAtom("Content-Type");
    assert IsAtom("multipart/mixed");
  }

  lemma HeaderFits(n: string, x: string)
    requires IsAtom(n) && IsAtom(x)
    ensures AllFit([Plain("HEADER"), Plain(n), Plain(x)], Words)
  {
    NameIsAtom(HEADER);
  }

  lemma FlagFits(f: FlagKey)
    ensures AllFit([Plain(FlagName(f))], Words)
  {
    FlagIsAtom(f);
  }

  lemma TypeArgsFit(name: string)
    ensures AllFit(TypeArgs(name), Words)
  {
    HeaderIsAtomic(name);
    match TypeOf(name)
    case Some(Flag(f)) => FlagFits(f);
    case Some(HasHeader(n, x)) => HeaderFits(n, x);
    case _ =>
  }

  lemma DateArgsFit(rel: DateKey, d: Option<Calendar>)
    ensures AllFit(DateArgs(rel, d), Words)
  {
    if d.Some? {
      NameIsAtom(DateWord(rel));
      DateIsAtom(d.value);
    }
  }

  lemma LineFits(ask: Ask)
    ensures AllFit(LineArgs(ask), Words)
  {
    var w, y, s, b := WordArgs(Searched(ask.fields), Split(ask.query)), TypeArgs(ask.typeFilter), DateArgs(SINCE, ask.since), DateArgs(BEFORE, ask.before);
    SplitMeans(ask.query);
    SearchedAreAtomic(ask.fields);
    WordArgsFit(Searched(ask.fields), Split(ask.query));
    TypeArgsFit(ask.typeFilter);
    DateArgsFit(SINCE, ask.since);
    DateArgsFit(BEFORE, ask.before);
    FitSplits(w, y, Words);
    FitSplits(w + y, s, Words);
    FitSplits(w + y + s, b, Words);
    FlagIsAtom(ALL);
  }

  /** What the server makes of the line. */
  lemma LineReadsAs(ask: Ask)
    ensures var words := Split(ask.query);
            Read(Join(Shown(LineArgs(ask)))) ==
            if AllReadableWords(words) && Datable(ask) then Some(Query(ask, Texts(words))) else None
  {
    LineFits(ask);
    LineReads(LineArgs(ask), Words);
    NarrowedReads(ask);
    if NarrowedArgs(ask) == [] {
      ReadOne(Plain("ALL"));
      NameReads(FlagWord(ALL));
      KeysParse([Word(FlagWord(ALL))], Leaf(Flag(ALL)), []);
      assert [Leaf(Flag(ALL))] + [] == [Leaf(Flag(ALL))];
    }
  }

  // ---------------------------------------------------------------------------
  // Words that stand for something else
  // ---------------------------------------------------------------------------

  /** True of everything but criteria on the text `w`. */
  ghost function Without(w: string): Truth {
    (c: Crit) => !((c.Contains? || c.HasHeader?) && c.text == w)
  }

  lemma LongestSpecial(words: seq<string>, some: nat) returns (m: nat)
    requires some < |words| && HasSpecial(words[some])
    ensures m < |words| && HasSpecial(words[m])
    ensures forall j :: 0 <= j < |words| && HasSpecial(words[j]) ==> |words[j]| <= |words[m]|
  {
    m := some;
    var i := 0;
    while i < |words|
      invariant i <= |words| && m < |words| && HasSpecial(words[m])
      invariant forall j :: 0 <= j < i && HasSpecial(words[j]) ==> |words[j]| <= |words[m]|
    {
      if HasSpecial(words[i]) && |words[i]| > |words[m]| {
        m := i;
      }
      i := i + 1;
    }
  }

  /** No word stands for the longest word that has a backslash. */
  lemma LongestIsUnread(words: seq<string>, m: nat, j: nat)
    requires AllReadableWords(words) && m < |words| && j < |words| && HasSpecial(words[m])
    requires HasSpecial(words[j]) ==> |words[j]| <= |words[m]|
    ensures Texts(words)[j] != words[m]
  {
    UnescapedText(words[j]);
  }

  lemma FoundWithout(fields: seq<string>, w: string, text: string)
    ensures WordFound(Without(w), fields, text) <==> text != w
  {
    SearchedMeans(Without(w), fields, text);
    var f := Searched(fields)[0];
    assert Without(w)(Test(f, text)) <==> text != w;
    assert text == w ==> forall i :: 0 <= i < |Searched(fields)| ==> !Without(w)(Test(Searched(fields)[i], text));
  }

  lemma TypeWithout(name: string, w: string)
    requires HasSpecial(w)
    ensures TypeOf(name).Some? ==> Without(w)(TypeOf(name).value)
  {
    assert !HasSpecial("multipart/mixed");
  }

  /** If some readable word has a backslash, some message is wanted and not asked for, or the other way round. */
  lemma SpecialsMisread(ask: Ask, words: seq<string>, some: nat) returns (t: Truth)
    requires AllReadableWords(words) && some < |words| && HasSpecial(words[some])
    ensures HoldAll(t, Query(ask, Texts(words))) && !WantsWords(t, ask, words)
  {
    var m := LongestSpecial(words, some);
    var w := words[m];
    t := Without(w);
    forall j | 0 <= j < |words| ensures WordFound(t, ask.fields, Texts(words)[j]) {
      LongestIsUnread(words, m, j);
      FoundWithout(ask.fields, w, Texts(words)[j]);
    }
    FoundWithout(ask.fields, w, w);
    TypeWithout(ask.typeFilter, w);
    QueryMeans(t, ask, Texts(words));
  }

  lemma PlainWordsRead(words: seq<string>)
    requires AllPlain(words)
    ensures AllReadableWords(words) && Texts(words) == words
  {
    forall i | 0 <= i < |words| ensures Unescaped(words[i]) == Some(words[i]) {
      PlainTextReads(words[i]);
    }
  }

  lemma NotPlain(words: seq<string>) returns (some: nat)
    requires AllReadableWords(words) && !AllPlain(words)
    ensures some < |words| && HasSpecial(words[some])
  {
    some :| some < |words| && !IsPlainText(words[some]);
    UnescapedText(words[some]);
  }

  /** The line asks for exactly what was wanted when, and only when, the dates and the query can be sent. */
  lemma LineCompiles(ask: Ask)
    ensures Compiles(Join(Shown(LineArgs(ask))), ask) <==> Datable(ask) && Sendable(ask.query)
  {
    var words := Split(ask.query);
    LineReadsAs(ask);
    SplitMeans(ask.query);
    if AllPlain(words) {
      PlainWordsRead(words);
      forall t: Truth ensures HoldAll(t, Query(ask, words)) <==> Wants(t, ask) {
        QueryMeans(t, ask, words);
      }
    } else if AllReadableWords(words) && Datable(ask) {
      var some := NotPlain(words);
      var t := SpecialsMisread(ask, words, some);
      assert !(HoldAll(t, Query(ask, Texts(words))) <==> Wants(t, ask));
    }
  }

  // ---------------------------------------------------------------------------
  // The encoder
  // ---------------------------------------------------------------------------

  function Quote(word: string): string {
    [QUOTE] + word + [QUOTE]
  }

  function FieldCriteria(f: Field, quoted: string): seq<string> {
    match f
    case In(s) => [SectionName(s), quoted]
    case InHeader(n) => ["HEADER", n, quoted]
  }

  /** `_build_or_group`. */
  function BuildOrGroup(fields: seq<Field>, quoted: string): seq<string>
    requires fields != []
  {
    if |fields| == 1 then FieldCriteria(fields[0], quoted)
    else if |fields| == 2 then ["OR"] + FieldCriteria(fields[0], quoted) + FieldCriteria(fields[1], quoted)
    else ["OR"] + FieldCriteria(fields[0], quoted) + BuildOrGroup(fields[1..], quoted)
  }

  function TypeStrings(name: string): seq<string> {
    if name == "unseen" then ["UNSEEN"]
    else if name == "flagged" then ["FLAGGED"]
    else if name == "unanswered" then ["UNANSWERED"]
    else if name == "deleted" then ["DELETED"]
    else if name == "undeleted" then ["UNDELETED"]
    else if name == "attachment" then ["HEADER", "Content-Type", "multipart/mixed"]
    else []
  }

  lemma FieldShown(f: Field, word: string)
    ensures FieldCriteria(f, Quote(word)) == Shown(FieldArgs(f, word))
  {
  }

  /** The recursive group is the right-nested OR of the fields, written out. */
  lemma {:induction false} OrGroupShown(fields: seq<Field>, word: string)
    requires fields != []
    ensures BuildOrGroup(fields, Quote(word)) == Shown(GroupArgs(fields, word))
  {
    FieldShown(fields[0], word);
    if |fields| > 1 {
      OrGroupShown(fields[1..], word);
      assert ["OR"] == Shown([Plain("OR")]);
      ShownSplit([Plain("OR")], FieldArgs(fields[0], word));
      ShownSplit([Plain("OR")] + FieldArgs(fields[0], word), GroupArgs(fields[1..], word));
    }
  }

  lemma TypeShown(name: string)
    ensures TypeStrings(name) == Shown(TypeArgs(name))
  {
  }

  lemma DateShown(rel: DateKey, d: Calendar)
    ensures [DateName(rel), ToImapDate(d)] == Shown(DateArgs(rel, Some(d)))
  {
  }

  method ImapFields(names: seq<string>) returns (chosen: seq<Field>)
    ensures chosen == Searched(names)
  {
    var fields := names;
    if "text" in fields {
      fields := ["text"];
    }
    chosen := [];
    var i := 0;
    while i < |fields|
      invariant 0 <= i <= |fields| && chosen == KnownFields(fields[..i])
    {
      assert fields[..i + 1][..i] == fields[..i];
      if FieldOf(fields[i]).Some? {
        chosen := chosen + [FieldOf(fields[i]).value];
      }
      i := i + 1;
    }
    assert fields[..i] == fields;
    if chosen == [] {
      chosen := [In(TEXT)];
    }
  }

  method WordCriteria(fields: seq<Field>, words: seq<string>) returns (criteria: seq<string>)
    requires fields != []
    ensures criteria == Shown(WordArgs(fields, words))
  {
    criteria := [];
    var i := 0;
    while i < |words|
      invariant 0 <= i <= |words| && criteria == Shown(WordArgs(fields, words[..i]))
    {
      var quoted := Quote(words[i]);
      assert words[..i + 1][..i] == words[..i];
      OrGroupShown(fields, words[i]);
      ShownSplit(WordArgs(fields, words[..i]), GroupArgs(fields, words[i]));
      if |fields| == 1 {
        criteria := criteria + FieldCriteria(fields[0], quoted);
      } else {
        criteria := criteria + BuildOrGroup(fields, quoted);
      }
      i := i + 1;
    }
    assert words[..i] == words;
  }

  method DateCriteria(criteria: seq<string>, name: string, d: Option<Calendar>, ghost rel: DateKey, ghost args: seq<Arg>) returns (r: seq<string>)
    requires criteria == Shown(args) && name == DateName(rel)
    ensures r == Shown(args + DateArgs(rel, d))
  {
    r := criteria;
    ShownSplit(args, DateArgs(rel, d));
    if d.Some? {
      DateShown(rel, d.value);
      r := r + [name, ToImapDate(d.value)];
    }
  }

  /**
   * `_build_search_criteria`: the line reads completely, as AND over the words of OR over the
   * fields, AND the type, AND the dates, exactly when every year has four digits and the query
   * has nothing a quoted string cannot hold as it stands. It cannot be read at all when a year or
   * a word is in the way; otherwise a backslash makes it ask for other words.
   */
  method BuildSearchCriteria(ask: Ask) returns (criteria: seq<string>)
    ensures Compiles(Join(criteria), ask) <==> Datable(ask) && Sendable(ask.query)
    ensures Read(Join(criteria)) ==
            if AllReadableWords(Split(ask.query)) && Datable(ask) then Some(Query(ask, Texts(Split(ask.query)))) else None
  {
    var fields := ImapFields(ask.fields);
    criteria := WordCriteria(fields, Split(ask.query));
    ghost var args := WordArgs(fields, Split(ask.query));
    TypeShown(ask.typeFilter);
    ShownSplit(args, TypeArgs(ask.typeFilter));
    criteria := criteria + TypeStrings(ask.typeFilter);
    args := args + TypeArgs(ask.typeFilter);
    criteria := DateCriteria(criteria, "SINCE", ask.since, SINCE, args);
    args := args + DateArgs(SINCE, ask.since);
    criteria := DateCriteria(criteria, "BEFORE", ask.before, BEFORE, args);
    if criteria == [] {
      criteria := ["ALL"];
    }
    assert criteria == Shown(LineArgs(ask));
    LineReadsAs(ask);
    LineCompiles(ask);
  }

  // ---------------------------------------------------------------------------
  // Two queries that go wrong
  // ---------------------------------------------------------------------------

  lemma OneWord(query: string)
    requires IsWord(query)
    ensures Split(query) == [query]
  {
    AllWord(query);
    assert query[..|query|] == query && query[|query|..] == "";
  }

  lemma {:induction false} AllWord(s: string)
    requires forall i :: 0 <= i < |s| ==> !IsSpace(s[i])
    ensures WordLength(s) == |s|
  {
    if s != "" {
      AllWord(s[1..]);
    }
  }

  /** The word "hi" with its quotes on: the whole command cannot be read. */
  lemma QuotedWordFails(ask: Ask)
    requires ask.query == [QUOTE, 'h', 'i', QUOTE]
    ensures Read(Join(Shown(LineArgs(ask)))).None?
  {
    OneWord(ask.query);
    assert Unescaped(Split(ask.query)[0]).None?;
    LineReadsAs(ask);
  }

  /** A backslash before a quote: the command reads, and asks for the quote alone. */
  lemma EscapedQuoteMisreads(ask: Ask)
    requires ask.query == [BACKSLASH, QUOTE] && Datable(ask)
    ensures Read(Join(Shown(LineArgs(ask)))) == Some(Query(ask, [[QUOTE]])) && !Compiles(Join(Shown(LineArgs(ask))), ask)
  {
    OneWord(ask.query);
    assert ask.query[2..] == "" && [QUOTE] + "" == [QUOTE];
    assert Unescaped(ask.query) == Some([QUOTE]);
    assert Texts(Split(ask.query)) == [[QUOTE]];
    LineReadsAs(ask);
    LineCompiles(ask);
    assert IsSpecial(ask.query[1]) && !IsSpace(ask.query[1]);
  }
}
