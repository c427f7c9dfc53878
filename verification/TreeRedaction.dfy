/**
 The walk that redacts every string of a parsed document in place and reports the rules that fired.
 Rules are arbitrary: a test and a rewriting, tried in order on what the earlier ones left.
 */
module TreeRedaction {
  import opened Wrappers
  import opened Sequences

  datatype Rule = Rule(id: string, hits: string -> bool, rewrite: string -> string)

  /** A document: the object members in their stored order. */
  datatype Value =
    | Scalar(token: string)
    | Text(text: string)
    | List(items: seq<Value>)
    | Dict(entries: seq<Entry>)

  datatype Entry = Entry(key: string, value: Value)

  // ---------------------------------------------------------------- what the rules do to a string

  /** The text before the first rule, after it, after the second one, and so on. */
  predicate IsTrace(rules: seq<Rule>, s: string, t: seq<string>) {
    && |t| == |rules| + 1 && t[0] == s
    && forall i | 0 <= i < |rules| :: t[i + 1] == if rules[i].hits(t[i]) then rules[i].rewrite(t[i]) else t[i]
  }

  function Trace(rules: seq<Rule>, s: string): (t: seq<string>)
    ensures IsTrace(rules, s, t)
  {
    if rules == [] then [s]
    else [s] + Trace(rules[1..], if rules[0].hits(s) then rules[0].rewrite(s) else s)
  }

  /** Rule `i` finds something in what the rules before it have left. */
  predicate FiresOn(rules: seq<Rule>, s: string, i: nat) {
    i < |rules| && rules[i].hits(Trace(rules, s)[i])
  }

  function RuleIds(rules: seq<Rule>): (ids: seq<string>)
    ensures |ids| == |rules| && forall i | 0 <= i < |rules| :: ids[i] == rules[i].id
  {
    seq(|rules|, i requires 0 <= i < |rules| => rules[i].id)
  }

  /** The ids of exactly the rules that fire, in their order. */
  ghost predicate AreFiringIds(rules: seq<Rule>, s: string, ids: seq<string>) {
    exists ks :: AreFiring(rules, s, ks) && Selection(ks, RuleIds(rules), ids)
  }

  ghost predicate AreFiring(rules: seq<Rule>, s: string, ks: seq<nat>) {
    forall i: nat :: i in ks <==> FiresOn(rules, s, i)
  }

  // ---------------------------------------------------------------- one string

  datatype Redacted = Redacted(text: string, ids: seq<string>)

  function RedactText(rules: seq<Rule>, s: string): Redacted {
    if rules == [] then Redacted(s, [])
    else
      var before := RedactText(rules[..|rules| - 1], s);
      var rule := rules[|rules| - 1];
      if rule.hits(before.text)
      then Redacted(rule.rewrite(before.text), before.ids + [rule.id])
      else before
  }

  lemma {:induction false} RedactTextSnoc(rules: seq<Rule>, rule: Rule, s: string)
    ensures var before := RedactText(rules, s).text;
            RedactText(rules + [rule], s).text == if rule.hits(before) then rule.rewrite(before) else before
  {
    assert (rules + [rule])[..|rules|] == rules;
  }

  lemma {:induction false} TraceIsUnique(rules: seq<Rule>, s: string, t: seq<string>, n: nat)
    requires IsTrace(rules, s, t) && n <= |rules|
    ensures t[n] == Trace(rules, s)[n]
  {
    if n > 0 {
      TraceIsUnique(rules, s, t, n - 1);
    }
  }

  /** The rules before the last one do what they do without it. */
  lemma {:induction false} TraceOfInit(rules: seq<Rule>, s: string)
    requires rules != []
    ensures forall i | 0 <= i < |rules| :: Trace(rules, s)[i] == Trace(rules[..|rules| - 1], s)[i]
  {
    var init := rules[..|rules| - 1];
    var t := Trace(rules, s)[..|rules|];
    assert IsTrace(init, s, t);
    forall i | 0 <= i < |rules| ensures Trace(rules, s)[i] == Trace(init, s)[i] {
      TraceIsUnique(init, s, t, i);
    }
  }

  lemma {:induction false} FiringSnoc(rules: seq<Rule>, s: string)
    requires rules != []
    ensures var n := |rules| - 1;
            && (FiresOn(rules, s, n) <==> rules[n].hits(Trace(rules, s)[n]))
            && forall i: nat :: FiresOn(rules, s, i) <==> FiresOn(rules[..n], s, i) || (i == n && FiresOn(rules, s, n))
  {
    var n := |rules| - 1;
    TraceOfInit(rules, s);
    hide Trace;
    assert forall i: nat | i < n :: rules[..n][i] == rules[i];
  }

  lemma {:induction false} FiringGrows(rules: seq<Rule>, s: string, ks: seq<nat>, ids: seq<string>)
    requires rules != [] && AreFiring(rules[..|rules| - 1], s, ks)
    requires Selection(ks, RuleIds(rules[..|rules| - 1]), ids)
    ensures var n := |rules| - 1;
            AreFiringIds(rules, s, if rules[n].hits(Trace(rules, s)[n]) then ids + [rules[n].id] else ids)
  {
    var n := |rules| - 1;
    var init := rules[..n];
    FiringSnoc(rules, s);
    hide Trace, FiresOn;
    var taken := FiresOn(rules, s, n);
    var more := SelectionGrows(ks, RuleIds(init), ids, rules[n].id, taken);
    assert RuleIds(rules) == RuleIds(init) + [rules[n].id];
    hide Selection;
    assert AreFiring(rules, s, more);
  }

  /** The text at the end of the trace, and the ids of exactly the rules that fire along it. */
  lemma {:induction false} RedactTextFollowsTrace(rules: seq<Rule>, s: string)
    ensures RedactText(rules, s).text == Trace(rules, s)[|rules|]
    ensures AreFiringIds(rules, s, RedactText(rules, s).ids)
    decreases rules
  {
    if rules == [] {
      assert AreFiring(rules, s, []) && Selection([], RuleIds(rules), []);
    } else {
      var n := |rules| - 1;
      RedactTextFollowsTrace(rules[..n], s);
      TraceOfInit(rules, s);
      assert IsTrace(rules, s, Trace(rules, s));
      hide Trace, AreFiring, Selection;
      var ks :| AreFiring(rules[..n], s, ks) && Selection(ks, RuleIds(rules[..n]), RedactText(rules[..n], s).ids);
      FiringGrows(rules, s, ks, RedactText(rules[..n], s).ids);
    }
  }

  /** `redact_str`. */
  method RedactStr(rules: seq<Rule>, input: string) returns (out: string, applied: seq<string>)
    ensures out == Trace(rules, input)[|rules|] && AreFiringIds(rules, input, applied)
    ensures Redacted(out, applied) == RedactText(rules, input)
    ensures applied == [] ==> out == input
  {
    hide AreFiringIds, Trace;
    out, applied := input, [];
    for i := 0 to |rules|
      invariant Redacted(out, applied) == RedactText(rules[..i], input)
      invariant applied == [] ==> out == input
    {
      assert rules[..i + 1][..i] == rules[..i];
      if rules[i].hits(out) {
        out := rules[i].rewrite(out);
        applied := applied + [rules[i].id];
      }
    }
    assert rules[..|rules|] == rules;
    RedactTextFollowsTrace(rules, input);
  }

  lemma {:induction false} SilentRulesKeepText(rules: seq<Rule>, s: string)
    requires RedactText(rules, s).ids == []
    ensures RedactText(rules, s).text == s
  {
    if rules != [] {
      SilentRulesKeepText(rules[..|rules| - 1], s);
    }
  }

  // ---------------------------------------------------------------- positions in a document

  function Child(v: Value, i: nat): Option<Value> {
    match v
    case List(items) => if i < |items| then Some(items[i]) else None
    case Dict(entries) => if i < |entries| then Some(entries[i].value) else None
    case _ => None
  }

  /** The node that a path of child indices leads to. */
  function At(v: Value, path: seq<nat>): Option<Value>
    decreases path
  {
    if path == [] then Some(v)
    else
      var c := Child(v, path[0]);
      if c.None? then None else At(c.value, path[1..])
  }

  /** Same kind of node: equal scalars, lists of one length, objects with the same keys in order. */
  predicate SameNode(v: Value, r: Value) {
    match v
    case Scalar(_) => r == v
    case Text(_) => r.Text?
    case List(items) => r.List? && |r.items| == |items|
    case Dict(entries) =>
      && r.Dict? && |r.entries| == |entries|
      && forall i | 0 <= i < |entries| :: r.entries[i].key == entries[i].key
  }

  /** `r` is `v` with every string replaced by its redaction, and nothing else changed. */
  ghost predicate IsRedactionOf(rules: seq<Rule>, v: Value, r: Value) {
    forall path: seq<nat> :: NodeRedacted(rules, At(v, path), At(r, path))
  }

  predicate NodeRedacted(rules: seq<Rule>, v: Option<Value>, r: Option<Value>) {
    if v.None? then r.None?
    else
      && r.Some? && SameNode(v.value, r.value)
      && (v.value.Text? ==> r.value.text == Trace(rules, v.value.text)[|rules|])
  }

  /** Some string of the document made the rule fire. */
  ghost predicate FiresSomewhere(rules: seq<Rule>, v: Value, id: string) {
    exists path: seq<nat> :: FiresAt(rules, At(v, path), id)
  }

  predicate FiresAt(rules: seq<Rule>, v: Option<Value>, id: string) {
    v.Some? && v.value.Text? && exists i | 0 <= i < |rules| :: rules[i].id == id && FiresOn(rules, v.value.text, i)
  }

  // ---------------------------------------------------------------- the walk

  function RedactTree(rules: seq<Rule>, v: Value): Value
    decreases v
  {
    match v
    case Scalar(_) => v
    case Text(s) => Text(RedactText(rules, s).text)
    case List(items) => List(seq(|items|, i requires 0 <= i < |items| => RedactTree(rules, items[i])))
    case Dict(entries) =>
      Dict(seq(|entries|, i requires 0 <= i < |entries| =>
        Entry(entries[i].key, RedactTree(rules, entries[i].value))))
  }

  /** The ids in the order in which the walk meets them. */
  function Fired(rules: seq<Rule>, v: Value): seq<string>
    decreases v, 0
  {
    match v
    case Scalar(_) => []
    case Text(s) => RedactText(rules, s).ids
    case List(items) => FiredIn(rules, items)
    case Dict(entries) => FiredInEntries(rules, entries)
  }

  function FiredIn(rules: seq<Rule>, items: seq<Value>): seq<string>
    decreases items, 1
  {
    if items == [] then [] else FiredIn(rules, items[..|items| - 1]) + Fired(rules, items[|items| - 1])
  }

  function FiredInEntries(rules: seq<Rule>, entries: seq<Entry>): seq<string>
    decreases entries, 1
  {
    if entries == [] then []
    else FiredInEntries(rules, entries[..|entries| - 1]) + Fired(rules, entries[|entries| - 1].value)
  }

  /** `walk`: returns the document with its strings replaced, and `applied` extended. */
  method Walk(rules: seq<Rule>, v: Value, applied: seq<string>) returns (r: Value, ids: seq<string>)
    ensures r == RedactTree(rules, v) && ids == applied + Fired(rules, v)
    decreases v, 0
  {
    hide RedactText;
    ids := applied;
    match v {
      case Scalar(_) =>
        r := v;
      case Text(s) =>
        var red, fired := RedactStr(rules, s);
        r := v;
        if fired != [] {
          r := Text(red);
          ids := ids + fired;
        }
      case List(items) =>
        var done;
        done, ids := WalkItems(rules, items, applied);
        r := List(done);
      case Dict(entries) =>
        var done;
        done, ids := WalkEntries(rules, entries, applied);
        r := Dict(done);
    }
  }

  /** The loop over an array. */
  method WalkItems(rules: seq<Rule>, items: seq<Value>, applied: seq<string>)
    returns (done: seq<Value>, ids: seq<string>)
    ensures |done| == |items| && forall k | 0 <= k < |items| :: done[k] == RedactTree(rules, items[k])
    ensures ids == applied + FiredIn(rules, items)
    decreases items, 1
  {
    hide RedactText, RedactTree, Fired;
    ids, done := applied, [];
    for i := 0 to |items|
      invariant |done| == i && forall k | 0 <= k < i :: done[k] == RedactTree(rules, items[k])
      invariant ids == applied + FiredIn(rules, items[..i])
    {
      var d;
      d, ids := Walk(rules, items[i], ids);
      done := done + [d];
      assert items[..i + 1][..i] == items[..i];
    }
    assert items[..|items|] == items;
  }

  /** The loop over the members of an object. */
  method WalkEntries(rules: seq<Rule>, entries: seq<Entry>, applied: seq<string>)
    returns (done: seq<Entry>, ids: seq<string>)
    ensures |done| == |entries|
    ensures forall k | 0 <= k < |entries| :: done[k] == Entry(entries[k].key, RedactTree(rules, entries[k].value))
    ensures ids == applied + FiredInEntries(rules, entries)
    decreases entries, 1
  {
    hide RedactText, RedactTree, Fired;
    ids, done := applied, [];
    for i := 0 to |entries|
      invariant |done| == i
      invariant forall k | 0 <= k < i :: done[k] == Entry(entries[k].key, RedactTree(rules, entries[k].value))
      invariant ids == applied + FiredInEntries(rules, entries[..i])
    {
      var d;
      d, ids := Walk(rules, entries[i].value, ids);
      done := done + [Entry(entries[i].key, d)];
      assert entries[..i + 1][..i] == entries[..i];
    }
    assert entries[..|entries|] == entries;
  }

  // ---------------------------------------------------------------- what the walk achieves

  lemma {:induction false} FiringIds(rules: seq<Rule>, s: string, id: string)
    ensures id in RedactText(rules, s).ids <==> FiresAt(rules, Some(Text(s)), id)
  {
    RedactTextFollowsTrace(rules, s);
    var ids := RedactText(rules, s).ids;
    hide RedactText, FiresOn;
    var ks :| AreFiring(rules, s, ks) && Selection(ks, RuleIds(rules), ids);
    if id in ids {
      var j :| 0 <= j < |ids| && ids[j] == id;
      assert ks[j] in ks && rules[ks[j]].id == id;
    }
    if i :| 0 <= i < |rules| && rules[i].id == id && FiresOn(rules, s, i) {
      assert i in ks;
      var j :| 0 <= j < |ks| && ks[j] == i;
      assert ids[j] == id;
    }
  }

  lemma {:induction false} RedactTreeAt(rules: seq<Rule>, v: Value, path: seq<nat>)
    ensures NodeRedacted(rules, At(v, path), At(RedactTree(rules, v), path))
    decreases path
  {
    if path == [] {
      if v.Text? { RedactTextFollowsTrace(rules, v.text); }
    } else {
      var c := Child(v, path[0]);
      assert Child(RedactTree(rules, v), path[0])
          == if c.None? then None else Some(RedactTree(rules, c.value));
      if c.Some? {
        RedactTreeAt(rules, c.value, path[1..]);
      }
    }
  }

  lemma {:induction false} FiredBelow(rules: seq<Rule>, v: Value, id: string, path: seq<nat>)
    requires FiresAt(rules, At(v, path), id)
    ensures id in Fired(rules, v)
    decreases path
  {
    if path == [] {
      FiringIds(rules, v.text, id);
    } else {
      var i := path[0];
      var c := Child(v, i).value;
      FiredBelow(rules, c, id, path[1..]);
      match v {
        case List(items) => FiredInHas(rules, items, i, id);
        case Dict(entries) => FiredInEntriesHas(rules, entries, i, id);
      }
    }
  }

  lemma {:induction false} FiredInHas(rules: seq<Rule>, items: seq<Value>, i: nat, id: string)
    requires i < |items| && id in Fired(rules, items[i])
    ensures id in FiredIn(rules, items)
    decreases items
  {
    if i < |items| - 1 {
      FiredInHas(rules, items[..|items| - 1], i, id);
    }
  }

  lemma {:induction false} FiredInEntriesHas(rules: seq<Rule>, entries: seq<Entry>, i: nat, id: string)
    requires i < |entries| && id in Fired(rules, entries[i].value)
    ensures id in FiredInEntries(rules, entries)
    decreases entries
  {
    if i < |entries| - 1 {
      FiredInEntriesHas(rules, entries[..|entries| - 1], i, id);
    }
  }

  lemma {:induction false} FiredSomewhere(rules: seq<Rule>, v: Value, id: string) returns (path: seq<nat>)
    requires id in Fired(rules, v)
    ensures FiresAt(rules, At(v, path), id)
    decreases v, 0
  {
    match v {
      case Text(s) =>
        FiringIds(rules, s, id);
        path := [];
      case List(items) =>
        var i := FiredInSome(rules, items, id);
        path := FiredSomewhere(rules, items[i], id);
        path := [i] + path;
      case Dict(entries) =>
        var i := FiredInSomeEntry(rules, entries, id);
        path := FiredSomewhere(rules, entries[i].value, id);
        path := [i] + path;
    }
  }

  lemma {:induction false} FiredInSome(rules: seq<Rule>, items: seq<Value>, id: string) returns (i: nat)
    requires id in FiredIn(rules, items)
    ensures i < |items| && id in Fired(rules, items[i])
    decreases items
  {
    i := |items| - 1;
    if id !in Fired(rules, items[i]) {
      i := FiredInSome(rules, items[..i], id);
    }
  }

  lemma {:induction false} FiredInSomeEntry(rules: seq<Rule>, entries: seq<Entry>, id: string) returns (i: nat)
    requires id in FiredInEntries(rules, entries)
    ensures i < |entries| && id in Fired(rules, entries[i].value)
    decreases entries
  {
    i := |entries| - 1;
    if id !in Fired(rules, entries[i].value) {
      i := FiredInSomeEntry(rules, entries[..i], id);
    }
  }

  lemma {:induction false} SilentWalkKeepsTree(rules: seq<Rule>, v: Value)
    requires Fired(rules, v) == []
    ensures RedactTree(rules, v) == v
    decreases v
  {
    match v {
      case Scalar(_) =>
      case Text(s) => SilentRulesKeepText(rules, s);
      case List(items) =>
        forall i | 0 <= i < |items| ensures RedactTree(rules, items[i]) == items[i] {
          SilentItem(rules, items, i);
          SilentWalkKeepsTree(rules, items[i]);
        }
        assert RedactTree(rules, v).items == items;
      case Dict(entries) =>
        forall i | 0 <= i < |entries| ensures RedactTree(rules, entries[i].value) == entries[i].value {
          SilentEntry(rules, entries, i);
          SilentWalkKeepsTree(rules, entries[i].value);
        }
        assert RedactTree(rules, v).entries == entries;
    }
  }

  lemma {:induction false} SilentItem(rules: seq<Rule>, items: seq<Value>, i: nat)
    requires i < |items| && FiredIn(rules, items) == []
    ensures Fired(rules, items[i]) == []
  {
    if Fired(rules, items[i]) != [] {
      FiredInHas(rules, items, i, Fired(rules, items[i])[0]);
    }
  }

  lemma {:induction false} SilentEntry(rules: seq<Rule>, entries: seq<Entry>, i: nat)
    requires i < |entries| && FiredInEntries(rules, entries) == []
    ensures Fired(rules, entries[i].value) == []
  {
    if Fired(rules, entries[i].value) != [] {
      FiredInEntriesHas(rules, entries, i, Fired(rules, entries[i].value)[0]);
    }
  }

  // ---------------------------------------------------------------- sorting the ids

  /** Lexicographic order of strings. */
  predicate Less(a: string, b: string)
    decreases a
  {
    if b == "" then false
    else if a == "" then true
    else a[0] < b[0] || (a[0] == b[0] && Less(a[1..], b[1..]))
  }

  lemma {:induction false} LessIsTotal(a: string, b: string)
    ensures a == b || Less(a, b) || Less(b, a)
    decreases a
  {
    if a != "" && b != "" && a[0] == b[0] {
      LessIsTotal(a[1..], b[1..]);
      assert a == [a[0]] + a[1..] && b == [b[0]] + b[1..];
    }
  }

  lemma {:induction false} LessIsTransitive(a: string, b: string, c: string)
    requires Less(a, b) && Less(b, c)
    ensures Less(a, c)
    decreases a
  {
    if a != "" && a[0] == b[0] && b[0] == c[0] {
      LessIsTransitive(a[1..], b[1..], c[1..]);
    }
  }

  /** The texts agree up to `k`, and there the first one ends or has the smaller character. */
  predicate SmallerAt(a: string, b: string, k: nat) {
    k <= |a| && k < |b| && a[..k] == b[..k] && (k == |a| || a[k] < b[k])
  }

  lemma {:induction false} LessIff(a: string, b: string)
    ensures Less(a, b) <==> exists k: nat | k <= |a| :: SmallerAt(a, b, k)
    decreases a
  {
    if b != "" && a != "" && a[0] == b[0] {
      LessIff(a[1..], b[1..]);
      forall k: nat ensures SmallerAt(a[1..], b[1..], k) <==> SmallerAt(a, b, k + 1) {
        SmallerShift(a, b, k);
      }
      assert !SmallerAt(a, b, 0);
      if k: nat :| k <= |a| && SmallerAt(a, b, k) {
        assert SmallerAt(a[1..], b[1..], k - 1);
      }
    } else if b != "" && (a == "" || a[0] < b[0]) {
      assert SmallerAt(a, b, 0);
    } else if b != "" {
      forall k: nat ensures !SmallerAt(a, b, k) {
        if 0 < k <= |a| && k <= |b| { assert a[..k][0] == a[0] && b[..k][0] == b[0]; }
      }
    }
  }

  lemma {:induction false} SmallerShift(a: string, b: string, k: nat)
    requires a != "" && b != "" && a[0] == b[0]
    ensures SmallerAt(a[1..], b[1..], k) <==> SmallerAt(a, b, k + 1)
  {
    if k < |a| && k + 1 < |b| {
      assert a[..k + 1] == [a[0]] + a[1..][..k];
      assert b[..k + 1] == [b[0]] + b[1..][..k];
    }
  }

  predicate StrictlySorted(ids: seq<string>) {
    forall i, j | 0 <= i < j < |ids| :: Less(ids[i], ids[j])
  }

  /** One id at its place among sorted ids, unless it is there already. */
  method InsertId(ids: seq<string>, id: string) returns (r: seq<string>)
    requires StrictlySorted(ids)
    ensures StrictlySorted(r)
    ensures forall x :: x in r <==> x in ids || x == id
  {
    var i := 0;
    while i < |ids| && Less(ids[i], id)
      invariant 0 <= i <= |ids|
      invariant forall k | 0 <= k < i :: Less(ids[k], id)
    {
      i := i + 1;
    }
    if i < |ids| && ids[i] == id {
      return ids;
    }
    r := ids[..i] + [id] + ids[i..];
    InsertedIsSorted(ids, id, i);
    InsertedHolds(ids, id, i);
  }

  lemma {:induction false} InsertedIsSorted(ids: seq<string>, id: string, i: nat)
    requires StrictlySorted(ids) && i <= |ids| && forall k | 0 <= k < i :: Less(ids[k], id)
    requires i < |ids| ==> !Less(ids[i], id) && ids[i] != id
    ensures StrictlySorted(ids[..i] + [id] + ids[i..])
  {
    var r := ids[..i] + [id] + ids[i..];
    if i < |ids| { LessIsTotal(ids[i], id); }
    forall k | i <= k < |ids| ensures Less(id, ids[k]) {
      if i < k { LessIsTransitive(id, ids[i], ids[k]); }
    }
    hide Less;
    forall j, k | 0 <= j < k < |r| ensures Less(r[j], r[k]) {
      assert r[j] == if j < i then ids[j] else if j == i then id else ids[j - 1];
      assert r[k] == if k < i then ids[k] else if k == i then id else ids[k - 1];
    }
  }

  lemma {:induction false} InsertedHolds(ids: seq<string>, id: string, i: nat)
    requires i <= |ids|
    ensures forall x :: x in ids[..i] + [id] + ids[i..] <==> x in ids || x == id
  {
    assert ids == ids[..i] + ids[i..];
  }

  method SortAndDedup(applied: seq<string>) returns (ids: seq<string>)
    ensures StrictlySorted(ids)
    ensures forall x :: x in ids <==> x in applied
  {
    ids := [];
    for i := 0 to |applied|
      invariant StrictlySorted(ids)
      invariant forall x :: x in ids <==> x in applied[..i]
    {
      ids := InsertId(ids, applied[i]);
      assert applied[..i + 1] == applied[..i] + [applied[i]];
    }
    assert applied[..|applied|] == applied;
  }

  /**
   `redact_value`: the document with every string redacted and nothing else touched, and the strictly
   sorted list of exactly the rules that fired; an empty list means that nothing changed.
   */
  method RedactValue(rules: seq<Rule>, v: Value) returns (r: Value, ids: seq<string>)
    ensures IsRedactionOf(rules, v, r)
    ensures StrictlySorted(ids)
    ensures forall id :: id in ids <==> FiresSomewhere(rules, v, id)
    ensures ids == [] ==> r == v
  {
    var applied;
    r, applied := Walk(rules, v, []);
    ids := SortAndDedup(applied);
    assert applied == Fired(rules, v);
    forall path: seq<nat> ensures NodeRedacted(rules, At(v, path), At(r, path)) {
      RedactTreeAt(rules, v, path);
    }
    forall id ensures id in ids <==> FiresSomewhere(rules, v, id) {
      if id in ids {
        var path := FiredSomewhere(rules, v, id);
      }
      if FiresSomewhere(rules, v, id) {
        var path: seq<nat> :| FiresAt(rules, At(v, path), id);
        FiredBelow(rules, v, id, path);
      }
    }
    assert applied != [] ==> applied[0] in ids;
    if ids == [] {
      SilentWalkKeepsTree(rules, v);
    }
  }
}
