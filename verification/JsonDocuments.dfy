/**
 Whole JSON texts: concrete syntax trees with white space and spelled strings, and the proof that
 the reader accepts exactly the texts they spell, with the values they mean.
 */
module JsonDocuments {
  import opened Wrappers
  import opened JsonSyntax
  import opened JsonReader
  import opened JsonGrammar
  import opened Sequences

  /** A value as spelled: `gap` is the white space inside empty brackets. */
  datatype Tree =
    | Word(value: Json)
    | Numeral(token: Bytes)
    | Text(pieces: seq<Piece>)
    | List(gap: Bytes, items: seq<Item>)
    | Record(gap: Bytes, fields: seq<Field>)

  datatype Item = Item(before: Bytes, tree: Tree, after: Bytes)
  datatype Field = Field(before: Bytes, key: seq<Piece>, gap: Bytes, value: Item)

  predicate Valid(t: Tree)
    decreases t
  {
    match t
    case Word(v) => v.Null? || v.Bool?
    case Numeral(token) => IsNumber(token)
    case Text(ps) => ValidPieces(ps)
    case List(gap, items) =>
      IsBlank(gap) && forall i | 0 <= i < |items| ::
        IsBlank(items[i].before) && Valid(items[i].tree) && IsBlank(items[i].after)
    case Record(gap, fields) =>
      IsBlank(gap) && forall i | 0 <= i < |fields| ::
        && IsBlank(fields[i].before) && ValidPieces(fields[i].key) && IsBlank(fields[i].gap)
        && IsBlank(fields[i].value.before) && Valid(fields[i].value.tree) && IsBlank(fields[i].value.after)
  }

  predicate ValidItem(item: Item) {
    IsBlank(item.before) && Valid(item.tree) && IsBlank(item.after)
  }

  predicate ValidField(f: Field) {
    IsBlank(f.before) && ValidPieces(f.key) && IsBlank(f.gap) && ValidItem(f.value)
  }

  function SpellTree(t: Tree): Bytes
    decreases t, 0
  {
    match t
    case Word(v) => Render(v)
    case Numeral(token) => token
    case Text(ps) => [QUOTE] + SpellAll(ps) + [QUOTE]
    case List(gap, items) => [LBRACKET] + (if items == [] then gap else SpellItems(items)) + [RBRACKET]
    case Record(gap, fields) => [LBRACE] + (if fields == [] then gap else SpellFields(fields)) + [RBRACE]
  }

  function SpellItem(item: Item): Bytes
    decreases item, 1
  {
    item.before + SpellTree(item.tree) + item.after
  }

  function SpellItems(items: seq<Item>): Bytes
    requires items != []
    decreases items, 2
  {
    if |items| == 1 then SpellItem(items[0])
    else SpellItem(items[0]) + [COMMA] + SpellItems(items[1..])
  }

  function SpellKey(f: Field): Bytes {
    f.before + ([QUOTE] + SpellAll(f.key) + [QUOTE]) + f.gap + [COLON]
  }

  function SpellField(f: Field): Bytes
    decreases f, 3
  {
    SpellKey(f) + SpellItem(f.value)
  }

  function SpellFields(fields: seq<Field>): Bytes
    requires fields != []
    decreases fields, 4
  {
    if |fields| == 1 then SpellField(fields[0])
    else SpellField(fields[0]) + [COMMA] + SpellFields(fields[1..])
  }

  function Meaning(t: Tree): Json
    requires Valid(t)
    decreases t, 0
  {
    match t
    case Word(v) => v
    case Numeral(token) => Number(token)
    case Text(ps) => String(TextMeaning(ps))
    case List(_, items) => Array(ItemMeanings(items))
    case Record(_, fields) => Object(FieldMeanings(fields))
  }

  function ItemMeanings(items: seq<Item>): seq<Json>
    requires forall i | 0 <= i < |items| :: ValidItem(items[i])
    decreases items, 2
  {
    if items == [] then []
    else
      assert ValidItem(items[0]);
      [Meaning(items[0].tree)] + ItemMeanings(items[1..])
  }

  function FieldMeanings(fields: seq<Field>): seq<Member>
    requires forall i | 0 <= i < |fields| :: ValidField(fields[i])
    decreases fields, 4
  {
    if fields == [] then []
    else
      assert ValidField(fields[0]);
      var f := fields[0];
      [Member(TextMeaning(f.key), Meaning(f.value.tree))] + FieldMeanings(fields[1..])
  }

  // ---------------------------------------------------------------- completeness

  lemma {:induction false} SkipBlank(w: Bytes, s: Bytes)
    requires IsBlank(w) && (s != [] ==> !IsSpace(s[0]))
    ensures SkipSpace(w + s) == s
  {
    if w == [] {
      assert w + s == s;
    } else {
      SkipBlank(w[1..], s);
      assert (w + s)[1..] == w[1..] + s;
    }
  }

  lemma {:induction false} NumberStart(s: Bytes)
    requires IsNumber(s)
    ensures s != [] && (IsDigit(s[0]) || s[0] == MINUS)
  {
  }

  lemma {:induction false} TreeStart(t: Tree)
    requires Valid(t)
    ensures SpellTree(t) != [] && !IsSpace(SpellTree(t)[0])
    ensures SpellTree(t)[0] !in {RBRACE, RBRACKET}
    ensures SpellTree(t)[0] == LBRACE ==> t.Record?
  {
    if t.Numeral? {
      NumberStart(t.token);
    }
  }

  lemma {:induction false} ReadWord(v: Json, rest: Bytes)
    requires v.Null? || v.Bool?
    ensures ReadLiteral(Render(v) + rest) == Accepted(v, rest)
  {
    var s := Render(v) + rest;
    TakeDropOfConcat(Render(v), rest);
    assert s[0] == Render(v)[0];
    if v != Null {
      DoesNotStart(s, NULL_TEXT);
      if v == Bool(false) {
        DoesNotStart(s, TRUE_TEXT);
      }
    }
  }

  lemma {:induction false} ReadNumeral(token: Bytes, rest: Bytes)
    requires IsNumber(token) && Delimited(rest)
    ensures ReadLiteral(token + rest) == Accepted(Number(token), rest)
  {
    var s := token + rest;
    NumberStart(token);
    ScanNumberComplete(token, rest);
    assert s[0] == token[0];
    assert s[..|token|] == token && s[|token|..] == rest;
    DoesNotStart(s, NULL_TEXT);
    DoesNotStart(s, TRUE_TEXT);
    DoesNotStart(s, FALSE_TEXT);
  }

  lemma {:induction false} DoesNotStart(s: Bytes, prefix: Bytes)
    requires s != [] && prefix != [] && s[0] != prefix[0]
    ensures !StartsWith(s, prefix)
  {
    if |prefix| <= |s| {
      assert s[..|prefix|][0] == s[0];
    }
  }

  lemma {:induction false} ReadBlankBefore(w: Bytes, s: Bytes)
    requires IsBlank(w) && s != [] && !IsSpace(s[0])
    ensures ReadValue(w + s) == ReadValue(s)
  {
    SkipBlank(w, s);
  }

  lemma {:induction false} ReadArray(s: Bytes, u: Bytes)
    requires s == [LBRACKET] + u
    requires var t := SkipSpace(u); t != [] && t[0] != RBRACKET
    requires ReadItems(u).Accepted?
    ensures ReadValue(s) == Accepted(Array(ReadItems(u).value), ReadItems(u).rest)
  {
    assert s[1..] == u;
  }

  lemma {:induction false} ReadEmptyArray(gap: Bytes, rest: Bytes)
    requires IsBlank(gap)
    ensures ReadValue([LBRACKET] + gap + [RBRACKET] + rest) == Accepted(Array([]), rest)
  {
    var s := [LBRACKET] + gap + [RBRACKET] + rest;
    var t := [RBRACKET] + rest;
    assert s[1..] == gap + t;
    SkipBlank(gap, t);
    TailOfCons(RBRACKET, rest);
  }

  lemma {:induction false} ReadObject(s: Bytes, u: Bytes)
    requires s == [LBRACE] + u
    requires var t := SkipSpace(u); t != [] && t[0] != RBRACE
    requires ReadMembers(u).Accepted?
    ensures ReadValue(s) == Accepted(Object(ReadMembers(u).value), ReadMembers(u).rest)
  {
    assert s[1..] == u;
  }

  lemma {:induction false} ReadEmptyObject(gap: Bytes, rest: Bytes)
    requires IsBlank(gap)
    ensures ReadValue([LBRACE] + gap + [RBRACE] + rest) == Accepted(Object([]), rest)
  {
    var s := [LBRACE] + gap + [RBRACE] + rest;
    var t := [RBRACE] + rest;
    assert s[1..] == gap + t;
    SkipBlank(gap, t);
    TailOfCons(RBRACE, rest);
  }

  lemma {:induction false} ReadQuoted(ps: seq<Piece>, rest: Bytes)
    requires ValidPieces(ps)
    ensures ReadValue([QUOTE] + SpellAll(ps) + [QUOTE] + rest) == Accepted(String(TextMeaning(ps)), rest)
  {
    var u := SpellAll(ps) + [QUOTE] + rest;
    ReadSpelledString(ps, rest);
    Assoc4([QUOTE], SpellAll(ps), [QUOTE], rest);
    TailOfCons(QUOTE, u);
    SkipBlank([], [QUOTE] + u);
  }

  /** Reading a spelled tree after any white space gives its meaning and leaves what follows it. */
  lemma {:induction false} ReadTree(w: Bytes, t: Tree, rest: Bytes)
    requires IsBlank(w) && Valid(t) && Delimited(rest)
    ensures ReadValue(w + SpellTree(t) + rest) == Accepted(Meaning(t), rest)
    decreases t, 0
  {
    var s := SpellTree(t) + rest;
    TreeStart(t);
    assert s[0] == SpellTree(t)[0];
    Assoc(w, SpellTree(t), rest);
    ReadBlankBefore(w, s);
    match t {
      case Word(v) =>
        ReadWord(v, rest);
      case Numeral(token) =>
        NumberStart(token);
        ReadNumeral(token, rest);
      case Text(ps) =>
        ReadQuoted(ps, rest);
      case List(gap, items) =>
        if items == [] {
          ReadEmptyArray(gap, rest);
        } else {
          ReadItemList(items, rest);
          ItemsStart(items, [RBRACKET] + rest);
          Assoc(SpellItems(items), [RBRACKET], rest);
          Assoc4([LBRACKET], SpellItems(items), [RBRACKET], rest);
          ReadArray(s, SpellItems(items) + [RBRACKET] + rest);
        }
      case Record(gap, fields) =>
        ReadRecord(gap, fields, rest);
    }
  }

  /** An object ends where its brace closes, whatever follows. */
  lemma {:induction false} ReadRecord(gap: Bytes, fields: seq<Field>, rest: Bytes)
    requires Valid(Record(gap, fields))
    ensures ReadValue(SpellTree(Record(gap, fields)) + rest) == Accepted(Meaning(Record(gap, fields)), rest)
    decreases fields, 5
  {
    if fields == [] {
      ReadEmptyObject(gap, rest);
    } else {
      assert forall i | 0 <= i < |fields| :: ValidField(fields[i]);
      ReadFieldList(fields, rest);
      FieldsStart(fields, [RBRACE] + rest);
      Assoc(SpellFields(fields), [RBRACE], rest);
      Assoc4([LBRACE], SpellFields(fields), [RBRACE], rest);
      ReadObject(SpellTree(Record(gap, fields)) + rest, SpellFields(fields) + [RBRACE] + rest);
    }
  }

  /** A spelled item list does not look like the end of an array. */
  lemma {:induction false} ItemsStart(items: seq<Item>, tail: Bytes)
    requires items != [] && ValidItem(items[0])
    ensures var t := SkipSpace(SpellItems(items) + tail); t != [] && t[0] != RBRACKET
  {
    hide Valid, SkipSpace, IsBlank, SpellTree;
    var item := items[0];
    var more := if |items| == 1 then [] else [COMMA] + SpellItems(items[1..]);
    var s := SpellTree(item.tree) + (item.after + more + tail);
    TreeStart(item.tree);
    assert SpellItems(items) + tail == item.before + s;
    SkipBlank(item.before, s);
  }

  lemma {:induction false} KeyText(f: Field, tail: Bytes)
    ensures SpellKey(f) + tail
         == f.before + ([QUOTE] + (SpellAll(f.key) + [QUOTE] + (f.gap + ([COLON] + tail))))
  {
    var q := [QUOTE] + SpellAll(f.key) + [QUOTE];
    Assoc(f.gap, [COLON], tail);
    Assoc5(f.before, q, f.gap, [COLON], tail);
    Assoc(f.before, q, f.gap + [COLON] + tail);
    Assoc4([QUOTE], SpellAll(f.key), [QUOTE], f.gap + [COLON] + tail);
  }

  lemma {:induction false} FieldsStart(fields: seq<Field>, tail: Bytes)
    requires fields != [] && ValidField(fields[0])
    ensures var t := SkipSpace(SpellFields(fields) + tail); t != [] && t[0] != RBRACE
  {
    var f := fields[0];
    var more := if |fields| == 1 then [] else [COMMA] + SpellFields(fields[1..]);
    assert SpellFields(fields) == SpellKey(f) + SpellItem(f.value) + more by {
      if |fields| > 1 { Assoc(SpellField(f), [COMMA], SpellFields(fields[1..])); }
    }
    Assoc4(SpellKey(f), SpellItem(f.value), more, tail);
    var rest := SpellItem(f.value) + more + tail;
    KeyText(f, rest);
    SkipBlank(f.before, [QUOTE] + (SpellAll(f.key) + [QUOTE] + (f.gap + ([COLON] + rest))));
  }

  /** One item, the white space after it, and the structural character that ends it. */
  lemma {:induction false} ReadItem(item: Item, end: byte, tail: Bytes)
    requires ValidItem(item) && end in {COMMA, RBRACKET, RBRACE}
    ensures var v := ReadValue(SpellItem(item) + [end] + tail);
            && v.Accepted? && v.value == Meaning(item.tree)
            && SkipSpace(v.rest) == [end] + tail
    decreases item, 1
  {
    var rest := item.after + ([end] + tail);
    assert Delimited(rest) by {
      if item.after != [] { assert rest[0] == item.after[0]; }
    }
    ReadTree(item.before, item.tree, rest);
    assert SpellItem(item) + [end] + tail == item.before + SpellTree(item.tree) + rest;
    SkipBlank(item.after, [end] + tail);
  }

  lemma {:induction false} ReadItemList(items: seq<Item>, rest: Bytes)
    requires items != [] && forall i | 0 <= i < |items| :: ValidItem(items[i])
    ensures ReadItems(SpellItems(items) + [RBRACKET] + rest) == Accepted(ItemMeanings(items), rest)
    decreases items, 2
  {
    if |items| == 1 {
      ReadItem(items[0], RBRACKET, rest);
      TailOfCons(RBRACKET, rest);
      assert items[1..] == [];
      assert ItemMeanings(items) == [Meaning(items[0].tree)];
    } else {
      var tail := SpellItems(items[1..]) + [RBRACKET] + rest;
      ReadItem(items[0], COMMA, tail);
      Assoc5(SpellItem(items[0]), [COMMA], SpellItems(items[1..]), [RBRACKET], rest);
      TailOfCons(COMMA, tail);
      ReadItemList(items[1..], rest);
    }
  }

  lemma {:induction false} ReadFieldKey(f: Field, tail: Bytes)
    requires ValidField(f)
    ensures ReadKey(SpellKey(f) + tail) == Accepted(TextMeaning(f.key), tail)
  {
    var after := f.gap + ([COLON] + tail);
    var u := SpellAll(f.key) + [QUOTE] + after;
    KeyText(f, tail);
    SkipBlank(f.before, [QUOTE] + u);
    TailOfCons(QUOTE, u);
    ReadSpelledString(f.key, after);
    SkipBlank(f.gap, [COLON] + tail);
    TailOfCons(COLON, tail);
  }

  /** One field and the structural character that ends it. */
  lemma {:induction false} ReadField(f: Field, end: byte, tail: Bytes)
    requires ValidField(f) && end in {COMMA, RBRACE}
    ensures var k := ReadKey(SpellField(f) + [end] + tail);
            && k.Accepted? && k.value == TextMeaning(f.key)
            && var v := ReadValue(k.rest);
            && v.Accepted? && v.value == Meaning(f.value.tree)
            && SkipSpace(v.rest) == [end] + tail
    decreases f, 3
  {
    ReadFieldKey(f, SpellItem(f.value) + [end] + tail);
    Assoc4(SpellKey(f), SpellItem(f.value), [end], tail);
    ReadItem(f.value, end, tail);
  }

  lemma {:induction false} ReadFieldList(fields: seq<Field>, rest: Bytes)
    requires fields != [] && forall i | 0 <= i < |fields| :: ValidField(fields[i])
    ensures ReadMembers(SpellFields(fields) + [RBRACE] + rest) == Accepted(FieldMeanings(fields), rest)
    decreases fields, 4
  {
    var f := fields[0];
    if |fields| == 1 {
      ReadField(f, RBRACE, rest);
      TailOfCons(RBRACE, rest);
      assert fields[1..] == [];
      assert FieldMeanings(fields) == [Member(TextMeaning(f.key), Meaning(f.value.tree))];
    } else {
      var tail := SpellFields(fields[1..]) + [RBRACE] + rest;
      ReadField(f, COMMA, tail);
      Assoc5(SpellField(f), [COMMA], SpellFields(fields[1..]), [RBRACE], rest);
      TailOfCons(COMMA, tail);
      ReadFieldList(fields[1..], rest);
    }
  }

  // ---------------------------------------------------------------- soundness

  lemma {:induction false} SkipSpaceSplit(s: Bytes) returns (w: Bytes)
    ensures IsBlank(w) && s == w + SkipSpace(s)
  {
    if s == [] || !IsSpace(s[0]) {
      w := [];
    } else {
      var rest := SkipSpaceSplit(s[1..]);
      w := [s[0]] + rest;
      HeadTail(s);
      Assoc([s[0]], rest, SkipSpace(s[1..]));
    }
  }

  lemma {:induction false} ReadLiteralSound(s: Bytes) returns (t: Tree)
    requires ReadLiteral(s).Accepted?
    ensures Valid(t) && Meaning(t) == ReadLiteral(s).value
    ensures s == SpellTree(t) + ReadLiteral(s).rest
  {
    if StartsWith(s, NULL_TEXT) {
      t := Word(Null);
    } else if StartsWith(s, TRUE_TEXT) {
      t := Word(Bool(true));
    } else if StartsWith(s, FALSE_TEXT) {
      t := Word(Bool(false));
    } else {
      ScanNumberSound(s);
      t := Numeral(s[..ScanNumber(s)]);
    }
  }

  lemma {:induction false} ReadRecordSound(s: Bytes) returns (t: Tree)
    requires s != [] && s[0] == LBRACE && ReadValue(s).Accepted?
    ensures Valid(t) && Meaning(t) == ReadValue(s).value && s == SpellTree(t) + ReadValue(s).rest
    decreases |s|, 0
  {
    hide SpellFields, ReadMembers, ValidPieces, TextMeaning;
    var u := SkipSpace(s[1..]);
    var rest := ReadValue(s).rest;
    HeadTail(s);
    if u != [] && u[0] == RBRACE {
      var gap := SkipSpaceSplit(s[1..]);
      t := Record(gap, []);
      HeadTail(u);
      Assoc4([LBRACE], gap, [RBRACE], rest);
      Assoc(gap, [RBRACE], rest);
    } else {
      var fields := ReadMembersSound(s[1..]);
      t := Record([], fields);
      Assoc4([LBRACE], SpellFields(fields), [RBRACE], rest);
    }
  }

  lemma {:induction false} ReadListSound(s: Bytes) returns (t: Tree)
    requires s != [] && s[0] == LBRACKET && ReadValue(s).Accepted?
    ensures Valid(t) && Meaning(t) == ReadValue(s).value && s == SpellTree(t) + ReadValue(s).rest
    decreases |s|, 0
  {
    hide SpellItems, ReadItems;
    var u := SkipSpace(s[1..]);
    var rest := ReadValue(s).rest;
    HeadTail(s);
    if u != [] && u[0] == RBRACKET {
      var gap := SkipSpaceSplit(s[1..]);
      t := List(gap, []);
      HeadTail(u);
      Assoc4([LBRACKET], gap, [RBRACKET], rest);
      Assoc(gap, [RBRACKET], rest);
    } else {
      var items := ReadItemsSound(s[1..]);
      t := List([], items);
      Assoc4([LBRACKET], SpellItems(items), [RBRACKET], rest);
    }
  }

  lemma {:induction false} ReadTextSound(s: Bytes) returns (t: Tree)
    requires s != [] && s[0] == QUOTE && ReadValue(s).Accepted?
    ensures Valid(t) && Meaning(t) == ReadValue(s).value && s == SpellTree(t) + ReadValue(s).rest
  {
    hide SpellAll, ReadString, TextMeaning;
    HeadTail(s);
    var ps := ReadStringSound(s[1..]);
    t := Text(ps);
    Assoc4([QUOTE], SpellAll(ps), [QUOTE], ReadValue(s).rest);
  }

  lemma {:induction false} ReadFromSkipped(input: Bytes)
    ensures ReadValue(SkipSpace(input)) == ReadValue(input)
  {
    var w := SkipSpaceSplit(input);
    var s := SkipSpace(input);
    if s == [] {
      assert SkipSpace(s) == s;
    } else {
      ReadBlankBefore(w, s);
    }
  }

  /** Whatever the reader accepts is a spelled tree with the value it returned. */
  lemma {:induction false} ReadValueSound(input: Bytes) returns (w: Bytes, t: Tree)
    requires ReadValue(input).Accepted?
    ensures IsBlank(w) && Valid(t) && Meaning(t) == ReadValue(input).value
    ensures input == w + SpellTree(t) + ReadValue(input).rest
    decreases |input|, 1
  {
    var s := SkipSpace(input);
    w := SkipSpaceSplit(input);
    ReadFromSkipped(input);
    if s[0] == LBRACE {
      t := ReadRecordSound(s);
    } else if s[0] == LBRACKET {
      t := ReadListSound(s);
    } else if s[0] == QUOTE {
      t := ReadTextSound(s);
    } else {
      t := ReadLiteralSound(s);
    }
    Assoc(w, SpellTree(t), ReadValue(input).rest);
  }

  /** A value and the white space after it form an item; `t` is what follows it. */
  lemma {:induction false} ReadItemSound(s: Bytes) returns (item: Item, t: Bytes)
    requires ReadValue(s).Accepted?
    ensures ValidItem(item) && Meaning(item.tree) == ReadValue(s).value
    ensures t == SkipSpace(ReadValue(s).rest) && s == SpellItem(item) + t
    decreases |s|, 2
  {
    var v := ReadValue(s);
    var w, tree := ReadValueSound(s);
    var after := SkipSpaceSplit(v.rest);
    t := SkipSpace(v.rest);
    item := Item(w, tree, after);
    Assoc4(w, SpellTree(tree), after, t);
  }

  lemma {:induction false} ReadItemsSound(s: Bytes) returns (items: seq<Item>)
    requires ReadItems(s).Accepted?
    ensures items != [] && forall i | 0 <= i < |items| :: ValidItem(items[i])
    ensures ItemMeanings(items) == ReadItems(s).value
    ensures s == SpellItems(items) + [RBRACKET] + ReadItems(s).rest
    decreases |s|, 3
  {
    hide Valid, SpellTree, SpellItem, Meaning, ReadValue, IsBlank;
    var item, t := ReadItemSound(s);
    var rest := ReadItems(s).rest;
    HeadTail(t);
    if t[0] == RBRACKET {
      items := [item];
      assert ItemMeanings(items) == [Meaning(item.tree)] + ItemMeanings(items[1..]);
      Assoc(SpellItem(item), [RBRACKET], rest);
    } else {
      var more := ReadItemsSound(t[1..]);
      items := [item] + more;
      TailOfCons(item, more);
      Assoc5(SpellItem(item), [COMMA], SpellItems(more), [RBRACKET], rest);
    }
  }

  lemma {:induction false} ReadKeySound(s: Bytes, value: Item) returns (f: Field)
    requires ReadKey(s).Accepted? && ValidItem(value)
    ensures ValidField(f) && f.value == value
    ensures TextMeaning(f.key) == ReadKey(s).value
    ensures s == SpellKey(f) + ReadKey(s).rest
  {
    var before := SkipSpaceSplit(s);
    var u := SkipSpace(s);
    HeadTail(u);
    var key := ReadStringSound(u[1..]);
    var k := ReadString(u[1..]);
    var gap := SkipSpaceSplit(k.rest);
    var t := SkipSpace(k.rest);
    HeadTail(t);
    f := Field(before, key, gap, value);
    KeyText(f, t[1..]);
  }

  lemma {:induction false} ReadMembersSound(s: Bytes) returns (fields: seq<Field>)
    requires ReadMembers(s).Accepted?
    ensures fields != [] && forall i | 0 <= i < |fields| :: ValidField(fields[i])
    ensures FieldMeanings(fields) == ReadMembers(s).value
    ensures s == SpellFields(fields) + [RBRACE] + ReadMembers(s).rest
    decreases |s|, 3
  {
    hide Valid, ValidPieces, SpellTree, SpellAll, TextMeaning, IsBlank, SpellKey, SpellItem, ReadValue, ReadKey,
         ReadString, Meaning;
    var k := ReadKey(s);
    var item, t := ReadItemSound(k.rest);
    var f := ReadKeySound(s, item);
    var rest := ReadMembers(s).rest;
    HeadTail(t);
    Assoc(SpellKey(f), SpellItem(item), t);
    if t[0] == RBRACE {
      fields := [f];
      assert FieldMeanings(fields)
          == [Member(TextMeaning(f.key), Meaning(item.tree))] + FieldMeanings(fields[1..]);
      Assoc(SpellField(f), [RBRACE], rest);
    } else {
      var more := ReadMembersSound(t[1..]);
      fields := [f] + more;
      TailOfCons(f, more);
      Assoc5(SpellField(f), [COMMA], SpellFields(more), [RBRACE], rest);
    }
  }

  // ---------------------------------------------------------------- documents

  /** `s` is a JSON text (RFC 8259 section 2) whose value is `v`. */
  ghost predicate IsDocument(s: Bytes, v: Json) {
    exists item: Item :: ValidItem(item) && SpellItem(item) == s && Meaning(item.tree) == v
  }

  /** The reader decides the grammar: acceptance, value and rejection all agree with it. */
  lemma {:induction false} ReaderDecidesGrammar(s: Bytes, v: Json)
    ensures ReadDocument(s) == Some(v) <==> IsDocument(s, v)
  {
    if ReadDocument(s) == Some(v) {
      var w, t := ReadValueSound(s);
      var after := SkipSpaceSplit(ReadValue(s).rest);
      assert SpellItem(Item(w, t, after)) == s;
    }
    if IsDocument(s, v) {
      var item: Item :| ValidItem(item) && SpellItem(item) == s && Meaning(item.tree) == v;
      ReadTree(item.before, item.tree, item.after);
      SkipBlank(item.after, []);
      assert item.after + [] == item.after;
    }
  }

  lemma {:induction false} ItemEdges(item: Item)
    requires ValidItem(item)
    ensures SpellItem(item) != []
    ensures item.before != [] ==> IsSpace(SpellItem(item)[0])
    ensures item.after != [] ==> IsSpace(SpellItem(item)[|SpellItem(item)| - 1])
    ensures item.before == [] && item.after == [] ==> SpellItem(item) == SpellTree(item.tree)
  {
    TreeStart(item.tree);
  }

  /** A text from brace to brace that is a document is read as one at the head of any longer text. */
  lemma {:induction false} BracedDocument(s: Bytes, v: Json, rest: Bytes)
    requires s != [] && s[0] == LBRACE && s[|s| - 1] == RBRACE && ReadDocument(s) == Some(v)
    ensures ReadValue(s + rest) == Accepted(v, rest)
  {
    ReaderDecidesGrammar(s, v);
    var item: Item :| ValidItem(item) && SpellItem(item) == s && Meaning(item.tree) == v;
    ItemEdges(item);
    var t := item.tree;
    assert s == SpellTree(t);
    TreeStart(t);
    ReadRecord(t.gap, t.fields, rest);
  }

  lemma {:induction false} MeaningIsWritable(t: Tree)
    requires Valid(t)
    ensures Writable(Meaning(t))
    decreases t, 0
  {
    match t {
      case Word(v) =>
      case Numeral(token) =>
      case Text(ps) =>
      case List(_, items) => ItemMeaningsWritable(items);
      case Record(_, fields) => FieldMeaningsWritable(fields);
    }
  }

  lemma {:induction false} ItemMeaningsWritable(items: seq<Item>)
    requires forall i | 0 <= i < |items| :: ValidItem(items[i])
    ensures forall i | 0 <= i < |ItemMeanings(items)| :: Writable(ItemMeanings(items)[i])
    decreases items, 1
  {
    if items != [] {
      MeaningIsWritable(items[0].tree);
      ItemMeaningsWritable(items[1..]);
    }
  }

  lemma {:induction false} FieldMeaningsWritable(fields: seq<Field>)
    requires forall i | 0 <= i < |fields| :: ValidField(fields[i])
    ensures forall i | 0 <= i < |FieldMeanings(fields)| :: Writable(FieldMeanings(fields)[i].value)
    decreases fields, 1
  {
    if fields != [] {
      assert ValidField(fields[0]);
      MeaningIsWritable(fields[0].value.tree);
      FieldMeaningsWritable(fields[1..]);
    }
  }

  // ---------------------------------------------------------------- the compact rendering

  /** The spelling the writer chooses for one byte of a string. */
  function CompactPiece(b: byte): (p: Piece)
    ensures ValidPiece(p) && Spell(p) == EscapeByte(b) && PieceMeaning(p) == [b]
  {
    if b == QUOTE || b == BACKSLASH then Short(b)
    else if b == 0x0A then Short(0x6E)
    else if b == 0x0D then Short(0x72)
    else if b == 0x09 then Short(0x74)
    else if b == 0x08 then Short(0x62)
    else if b == 0x0C then Short(0x66)
    else if b < 0x20 then Unit([0x30, 0x30, HexDigit(b / 16), HexDigit(b % 16)])
    else Raw(b)
  }

  lemma {:induction false} CompactPieces(s: Bytes) returns (ps: seq<Piece>)
    ensures ValidPieces(ps) && SpellAll(ps) == Escape(s) && TextMeaning(ps) == s
  {
    if s == [] {
      ps := [];
    } else {
      var more := CompactPieces(s[1..]);
      ps := [CompactPiece(s[0])] + more;
      assert ps[1..] == more;
    }
  }

  /** Every writable tree has a syntax tree that spells its rendering. */
  lemma {:induction false} CompactTree(v: Json) returns (t: Tree)
    requires Writable(v)
    ensures Valid(t) && SpellTree(t) == Render(v) && Meaning(t) == v
    decreases v, 0
  {
    match v {
      case Null => t := Word(v);
      case Bool(_) => t := Word(v);
      case Number(token) => t := Numeral(token);
      case String(text) =>
        var ps := CompactPieces(text);
        t := Text(ps);
      case Array(items) =>
        var list := CompactItems(items);
        t := List([], list);
      case Object(members) =>
        var fields := CompactFields(members);
        t := Record([], fields);
    }
  }

  lemma {:induction false} CompactItems(items: seq<Json>) returns (list: seq<Item>)
    requires forall i | 0 <= i < |items| :: Writable(items[i])
    ensures |list| == |items| && forall i | 0 <= i < |list| :: ValidItem(list[i])
    ensures list != [] ==> SpellItems(list) == RenderItems(items)
    ensures ItemMeanings(list) == items
    decreases items, 1
  {
    if items == [] {
      list := [];
    } else {
      var t := CompactTree(items[0]);
      var more := CompactItems(items[1..]);
      list := [Item([], t, [])] + more;
      assert list[1..] == more;
      assert SpellItem(list[0]) == Render(items[0]);
    }
  }

  lemma {:induction false} CompactField(m: Member) returns (f: Field)
    requires Writable(m.value)
    ensures ValidField(f) && SpellField(f) == RenderMember(m)
    ensures TextMeaning(f.key) == m.key && Meaning(f.value.tree) == m.value
    decreases m, 2
  {
    hide Valid, SpellTree, Meaning, SpellAll, Escape, Render, ValidPieces;
    var ps := CompactPieces(m.key);
    var t := CompactTree(m.value);
    f := Field([], ps, [], Item([], t, []));
    assert SpellItem(f.value) == Render(m.value);
    assert SpellKey(f) == Quote(m.key) + [COLON];
  }

  lemma {:induction false} CompactFields(members: seq<Member>) returns (fields: seq<Field>)
    requires forall i | 0 <= i < |members| :: Writable(members[i].value)
    ensures |fields| == |members| && forall i | 0 <= i < |fields| :: ValidField(fields[i])
    ensures fields != [] ==> SpellFields(fields) == RenderMembers(members)
    ensures FieldMeanings(fields) == members
    decreases members, 3
  {
    if members == [] {
      fields := [];
    } else {
      var f := CompactField(members[0]);
      var more := CompactFields(members[1..]);
      fields := [f] + more;
      TailOfCons(f, more);
    }
  }

  /**
   The round trip: a rendering, with any white space around it (the program ends its document with a
   newline), reads back as the same tree.
   */
  lemma {:induction false} RenderReadsBack(before: Bytes, v: Json, after: Bytes)
    requires Writable(v) && IsBlank(before) && IsBlank(after)
    ensures ReadDocument(before + Render(v) + after) == Some(v)
  {
    var t := CompactTree(v);
    var item := Item(before, t, after);
    assert SpellItem(item) == before + Render(v) + after;
    assert ValidItem(item);
    ReaderDecidesGrammar(before + Render(v) + after, v);
  }

  /**
   Exactly which trees come back: those whose number tokens are JSON numbers. The writer takes any text
   as a number token, `nan` and `inf` among them.
   */
  lemma {:induction false} ReadsBackIffWritable(v: Json)
    ensures ReadDocument(Render(v)) == Some(v) <==> Writable(v)
  {
    if Writable(v) {
      RenderReadsBack([], v, []);
      assert [] + Render(v) + [] == Render(v);
    }
    if ReadDocument(Render(v)) == Some(v) {
      ReaderDecidesGrammar(Render(v), v);
      var item: Item :| ValidItem(item) && SpellItem(item) == Render(v) && Meaning(item.tree) == v;
      MeaningIsWritable(item.tree);
    }
  }
}
