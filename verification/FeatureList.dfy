/**
 The override table of libquic/base/feature_list.cc: printing it as two command-line lists and
 registering those lists again.
*/
module FeatureList {
  import opened Basics

  datatype OverrideState = UseDefault | Enable | Disable
  datatype Entry = Entry(state: OverrideState, trial: Option<string>)
  type Table = map<string, Entry>

  // Splitting a list: at commas, each piece trimmed, empty pieces dropped

  predicate Whitespace(c: char) { '\t' <= c <= '\r' || c == ' ' }

  function TrimLeft(s: string): string {
    if s != [] && Whitespace(s[0]) then TrimLeft(s[1..]) else s
  }

  function TrimRight(s: string): string {
    if s != [] && Whitespace(s[|s| - 1]) then TrimRight(s[..|s| - 1]) else s
  }

  function Split(s: string, piece: string): seq<string> {
    if s == [] then [piece]
    else if s[0] == ',' then [piece] + Split(s[1..], [])
    else Split(s[1..], piece + [s[0]])
  }

  function Kept(pieces: seq<string>): seq<string> {
    if pieces == [] then []
    else
      var p := TrimRight(TrimLeft(pieces[0]));
      (if p == [] then [] else [p]) + Kept(pieces[1..])
  }

  function Tokens(list: string): seq<string> { Kept(Split(list, [])) }

  // Registering

  /** The index of the first '<', or the length. */
  function Cut(s: string): (k: nat)
    ensures k <= |s| && (forall i :: 0 <= i < k ==> s[i] != '<') && (k < |s| ==> s[k] == '<')
  {
    if s == [] || s[0] == '<' then 0 else 1 + Cut(s[1..])
  }

  function Find(trials: set<string>, name: string): Option<string> {
    if name in trials then Some(name) else None
  }

  /** RegisterOverride: a leading star means the default state, and the first override of a name
      stays. */
  function Registered(table: Table, name: string, state: OverrideState, trial: Option<string>): Table {
    var star := name != [] && name[0] == '*';
    var key := if star then name[1..] else name;
    if key in table then table else table[key := Entry(if star then UseDefault else state, trial)]
  }

  function RegisterToken(table: Table, token: string, state: OverrideState, trials: set<string>): Table {
    var k := Cut(token);
    Registered(table, token[..k], state, if k < |token| then Find(trials, token[k + 1..]) else None)
  }

  function RegisterTokens(table: Table, tokens: seq<string>, state: OverrideState, trials: set<string>): Table
    decreases |tokens|
  {
    if tokens == [] then table
    else RegisterTokens(RegisterToken(table, tokens[0], state, trials), tokens[1..], state, trials)
  }

  /** InitializeFromCommandLine: disabled features first. */
  function Initialized(enable: string, disable: string, trials: set<string>): Table {
    RegisterTokens(RegisterTokens(map[], Tokens(disable), Disable, trials), Tokens(enable), Enable, trials)
  }

  // Printing

  function Head(name: string, e: Entry): string {
    (if e.state.UseDefault? then ['*'] else []) + name
  }

  function Item(name: string, e: Entry): string {
    Head(name, e) + (if e.trial.Some? then ['<'] + e.trial.value else [])
  }

  /** A comma goes in front of an item unless the list is still empty. */
  function Append(list: string, item: string): string {
    (if list == [] then [] else list + [',']) + item
  }

  function Joined(items: seq<string>): string {
    if items == [] then [] else Append(Joined(items[..|items| - 1]), items[|items| - 1])
  }

  /** The table in the order the map is walked. */
  ghost predicate Enumerates(order: seq<string>, table: Table) {
    && (forall i :: 0 <= i < |order| ==> order[i] in table)
    && (forall n :: n in table ==> n in order)
    && (forall i, j :: 0 <= i < j < |order| ==> order[i] != order[j])
  }

  predicate Disabled(table: Table, name: string) {
    name in table && table[name].state.Disable?
  }

  /** The names of `order` that go to the disable list, or to the enable list. */
  function Listed(order: seq<string>, table: Table, disabled: bool): (names: seq<string>)
    ensures forall n :: n in names <==> n in order && Disabled(table, n) == disabled
  {
    if order == [] then []
    else
      var rest := Listed(order[..|order| - 1], table, disabled);
      if Disabled(table, order[|order| - 1]) == disabled then rest + [order[|order| - 1]] else rest
  }

  function Items(names: seq<string>, table: Table): (items: seq<string>)
    requires forall n :: n in names ==> n in table
    ensures |items| == |names| && forall i :: 0 <= i < |names| ==> items[i] == Item(names[i], table[names[i]])
  {
    if names == [] then []
    else Items(names[..|names| - 1], table) + [Item(names[|names| - 1], table[names[|names| - 1]])]
  }

  // Printing and splitting again

  /** IsValidFeatureOrFieldTrialName, for the reserved characters. */
  predicate ValidName(s: string) {
    forall i :: 0 <= i < |s| ==> s[i] != ',' && s[i] != '<' && s[i] != '*'
  }

  predicate CommaFree(s: string) {
    forall i :: 0 <= i < |s| ==> s[i] != ','
  }

  /** Non-empty, and neither end is whitespace. */
  predicate Trimmed(s: string) {
    s != [] && !Whitespace(s[0]) && !Whitespace(s[|s| - 1])
  }

  lemma {:induction false} SplitPlain(s: string, piece: string)
    requires CommaFree(s)
    ensures Split(s, piece) == [piece + s]
  {
    if s == [] {
      assert piece + s == piece;
    } else {
      SplitPlain(s[1..], piece + [s[0]]);
      assert piece + [s[0]] + s[1..] == piece + s;
    }
  }

  lemma {:induction false} SplitAppend(a: string, b: string, piece: string)
    ensures Split(a + ([','] + b), piece) == Split(a, piece) + Split(b, [])
  {
    var s := a + ([','] + b);
    if a == [] {
      assert s == [','] + b && s[1..] == b;
    } else {
      assert s[1..] == a[1..] + ([','] + b);
      SplitAppend(a[1..], b, if a[0] == ',' then [] else piece + [a[0]]);
    }
  }

  lemma {:induction false} JoinedSplits(items: seq<string>)
    requires items != [] && forall i :: 0 <= i < |items| ==> CommaFree(items[i]) && items[i] != []
    ensures Joined(items) != [] && Split(Joined(items), []) == items
  {
    var init, last := items[..|items| - 1], items[|items| - 1];
    SplitPlain(last, []);
    assert [] + last == last;
    if init == [] {
      assert Joined(init) == [] && items == [last];
    } else {
      JoinedSplits(init);
      assert Joined(items) == Joined(init) + ([','] + last);
      SplitAppend(Joined(init), last, []);
      assert items == init + [last];
    }
  }

  lemma {:induction false} KeptTrimmed(pieces: seq<string>)
    requires forall i :: 0 <= i < |pieces| ==> Trimmed(pieces[i])
    ensures Kept(pieces) == pieces
  {
    if pieces != [] {
      KeptTrimmed(pieces[1..]);
      assert [pieces[0]] + pieces[1..] == pieces;
    }
  }

  lemma TokensOfJoined(items: seq<string>)
    requires forall i :: 0 <= i < |items| ==> CommaFree(items[i]) && Trimmed(items[i])
    ensures Tokens(Joined(items)) == items
  {
    if items == [] {
      assert Split([], []) == [[]];
    } else {
      JoinedSplits(items);
      KeptTrimmed(items);
    }
  }

  // Registering an item

  /** A table entry whose printed form can be told apart from its neighbours and read again. */
  predicate Printable(name: string, e: Entry, trials: set<string>) {
    && ValidName(name) && Trimmed(Item(name, e))
    && (e.trial.Some? ==> ValidName(e.trial.value) && e.trial.value in trials)
  }

  lemma CutAt(s: string, k: nat)
    requires k <= |s| && (forall i :: 0 <= i < k ==> s[i] != '<') && (k < |s| ==> s[k] == '<')
    ensures Cut(s) == k
  {
  }

  lemma ItemIsCommaFree(name: string, e: Entry, trials: set<string>)
    requires Printable(name, e, trials)
    ensures CommaFree(Item(name, e))
  {
  }

  lemma ItemCuts(name: string, e: Entry, trials: set<string>)
    requires Printable(name, e, trials)
    ensures var item, k := Item(name, e), |Head(name, e)|;
            && Cut(item) == k && item[..k] == Head(name, e)
            && (if k < |item| then Find(trials, item[k + 1..]) else None) == e.trial
  {
    var item, head := Item(name, e), Head(name, e);
    CutAt(item, |head|);
    if e.trial.Some? {
      assert item[|head| + 1..] == e.trial.value;
    }
  }

  lemma HeadRegisters(table: Table, name: string, e: Entry)
    requires ValidName(name)
    ensures Registered(table, Head(name, e), if e.state.Disable? then Disable else Enable, e.trial)
         == if name in table then table else table[name := e]
  {
    var head := Head(name, e);
    if e.state.UseDefault? {
      assert head[1..] == name;
    } else {
      assert head == name;
    }
  }

  lemma ItemRegisters(table: Table, name: string, e: Entry, trials: set<string>)
    requires Printable(name, e, trials)
    ensures RegisterToken(table, Item(name, e), if e.state.Disable? then Disable else Enable, trials)
         == if name in table then table else table[name := e]
  {
    ItemCuts(name, e, trials);
    HeadRegisters(table, name, e);
  }

  /** The entries of some names. */
  function Part(names: seq<string>, table: Table): Table {
    map n | n in names && n in table :: table[n]
  }

  lemma PartSnoc(start: Table, init: seq<string>, last: string, table: Table)
    requires last in table && last !in start
    ensures var before := start + Part(init, table);
            (if last in before then before else before[last := table[last]]) == start + Part(init + [last], table)
  {
  }

  lemma {:induction false} RegisterSnoc(table: Table, a: seq<string>, x: string, state: OverrideState,
                                            trials: set<string>)
    ensures RegisterTokens(table, a + [x], state, trials)
         == RegisterToken(RegisterTokens(table, a, state, trials), x, state, trials)
    decreases |a|
  {
    if a == [] {
      assert a + [x] == [x] && [x][1..] == [];
    } else {
      assert (a + [x])[0] == a[0] && (a + [x])[1..] == a[1..] + [x];
      RegisterSnoc(RegisterToken(table, a[0], state, trials), a[1..], x, state, trials);
    }
  }

  /** Registering printed items adds exactly their entries. */
  lemma {:induction false} ItemsRegister(start: Table, names: seq<string>, table: Table, disabled: bool,
                                             trials: set<string>)
    requires forall n :: n in names ==> n in table && Printable(n, table[n], trials)
    requires forall n :: n in names ==> Disabled(table, n) == disabled && n !in start
    ensures RegisterTokens(start, Items(names, table), if disabled then Disable else Enable, trials)
         == start + Part(names, table)
    decreases |names|
  {
    if names == [] {
      assert start + Part(names, table) == start;
    } else {
      var init, last := names[..|names| - 1], names[|names| - 1];
      var state := if disabled then Disable else Enable;
      assert names == init + [last] && last in names;
      ItemsRegister(start, init, table, disabled, trials);
      RegisterSnoc(start, Items(init, table), Item(last, table[last]), state, trials);
      ItemRegisters(start + Part(init, table), last, table[last], trials);
      PartSnoc(start, init, last, table);
    }
  }

  function Printed(order: seq<string>, table: Table, disabled: bool): string
    requires forall n :: n in order ==> n in table
  {
    Joined(Items(Listed(order, table, disabled), table))
  }

  lemma PrintedTokens(order: seq<string>, table: Table, disabled: bool, trials: set<string>)
    requires forall n :: n in order ==> n in table && Printable(n, table[n], trials)
    ensures Tokens(Printed(order, table, disabled)) == Items(Listed(order, table, disabled), table)
  {
    var names := Listed(order, table, disabled);
    var items := Items(names, table);
    forall i | 0 <= i < |items| ensures CommaFree(items[i]) && Trimmed(items[i]) {
      assert names[i] in names;
      ItemIsCommaFree(names[i], table[names[i]], trials);
    }
    TokensOfJoined(items);
  }

  /** Printing both lists and registering them into an empty table gives the table back. */
  lemma RoundTrip(order: seq<string>, table: Table, trials: set<string>)
    requires Enumerates(order, table)
    requires forall n :: n in table ==> Printable(n, table[n], trials)
    ensures Initialized(Printed(order, table, false), Printed(order, table, true), trials) == table
  {
    var off, on := Listed(order, table, true), Listed(order, table, false);
    ListRegisters(map[], order, table, true, trials);
    ListRegisters(map[] + Part(off, table), order, table, false, trials);
    PartsMakeUp(order, table, off, on);
  }

  /** Registering one printed list adds its entries. */
  lemma ListRegisters(start: Table, order: seq<string>, table: Table, disabled: bool, trials: set<string>)
    requires forall n :: n in order ==> n in table && Printable(n, table[n], trials)
    requires forall n :: n in start ==> Disabled(table, n) != disabled
    ensures RegisterTokens(start, Tokens(Printed(order, table, disabled)), if disabled then Disable else Enable, trials)
         == start + Part(Listed(order, table, disabled), table)
  {
    PrintedTokens(order, table, disabled, trials);
    ItemsRegister(start, Listed(order, table, disabled), table, disabled, trials);
  }

  lemma PartsMakeUp(order: seq<string>, table: Table, off: seq<string>, on: seq<string>)
    requires Enumerates(order, table) && off == Listed(order, table, true) && on == Listed(order, table, false)
    ensures map[] + Part(off, table) + Part(on, table) == table
  {
  }

  // The other direction: what an item with whitespace at an end, or an empty one, turns into

  function Trim(s: string): string { TrimRight(TrimLeft(s)) }

  /** The characters the names must keep clear of, and trials that can be found. */
  predicate Renderable(name: string, e: Entry, trials: set<string>) {
    && ValidName(name) && (e.trial.Some? ==> ValidName(e.trial.value) && e.trial.value in trials)
  }

  function KeyOf(token: string): string {
    var head := token[..Cut(token)];
    if head != [] && head[0] == '*' then head[1..] else head
  }

  function TrialOf(token: string, trials: set<string>): Option<string> {
    var k := Cut(token);
    if k < |token| then Find(trials, token[k + 1..]) else None
  }

  /** A token comes from trimming an item, and is not empty. */
  ghost predicate TokenOf(token: string, items: seq<string>) {
    token != [] && exists p :: p in items && token == Trim(p)
  }

  lemma {:induction false} PiecesAreItems(items: seq<string>)
    requires forall i :: 0 <= i < |items| ==> CommaFree(items[i])
    ensures forall p :: p in Split(Joined(items), []) ==> p == [] || p in items
  {
    if items == [] {
      assert Split([], []) == [[]];
    } else {
      var init, last := items[..|items| - 1], items[|items| - 1];
      PiecesAreItems(init);
      SplitPlain(last, []);
      assert [] + last == last;
      assert items == init + [last];
      if Joined(init) != [] {
        assert Joined(items) == Joined(init) + ([','] + last);
        SplitAppend(Joined(init), last, []);
      } else {
        assert Joined(items) == last;
      }
    }
  }

  lemma {:induction false} KeptFrom(pieces: seq<string>, items: seq<string>)
    requires forall p :: p in pieces ==> p == [] || p in items
    ensures forall t :: t in Kept(pieces) ==> TokenOf(t, items)
  {
    if pieces != [] {
      KeptFrom(pieces[1..], items);
      var t := Trim(pieces[0]);
      assert pieces[0] in pieces;
      assert t != [] ==> TokenOf(t, items);
    }
  }

  /** An entry of the table after registering was there before, or comes from a token. */
  lemma {:induction false} Provenance(table: Table, tokens: seq<string>, state: OverrideState,
                                          trials: set<string>, n: string)
    requires n in RegisterTokens(table, tokens, state, trials)
    ensures var r := RegisterTokens(table, tokens, state, trials);
            || (n in table && table[n] == r[n])
            || (exists t :: t in tokens && KeyOf(t) == n && TrialOf(t, trials) == r[n].trial)
    decreases |tokens|
  {
    if tokens != [] {
      Provenance(RegisterToken(table, tokens[0], state, trials), tokens[1..], state, trials, n);
      assert tokens[0] in tokens;
    }
  }

  /** Trimming takes a stretch of the string, bounded by characters that are not whitespace. */
  lemma TrimIs(s: string) returns (a: nat, b: nat)
    ensures a <= b <= |s| && Trim(s) == s[a..b]
    ensures forall i :: 0 <= i < |s| && !Whitespace(s[i]) ==> a <= i < b
    ensures a < b ==> !Whitespace(s[a]) && !Whitespace(s[b - 1])
  {
    a := TrimLeftIs(s);
    var n := TrimRightIs(s[a..]);
    b := a + n;
    assert s[a..][..n] == s[a..b];
    forall i | 0 <= i < |s| && !Whitespace(s[i]) ensures a <= i < b {
      assert a <= i;
      assert s[a..][i - a] == s[i];
    }
  }

  lemma {:induction false} TrimLeftIs(s: string) returns (a: nat)
    ensures a <= |s| && TrimLeft(s) == s[a..]
    ensures forall i :: 0 <= i < a ==> Whitespace(s[i])
    ensures a < |s| ==> !Whitespace(s[a])
  {
    a := 0;
    if s != [] && Whitespace(s[0]) {
      var k := TrimLeftIs(s[1..]);
      a := k + 1;
      assert s[1..][k..] == s[a..];
      forall i | 0 <= i < a ensures Whitespace(s[i]) {
        if i > 0 { assert s[1..][i - 1] == s[i]; }
      }
    }
  }

  lemma {:induction false} TrimRightIs(s: string) returns (b: nat)
    ensures b <= |s| && TrimRight(s) == s[..b]
    ensures forall i :: b <= i < |s| ==> Whitespace(s[i])
    ensures b > 0 ==> !Whitespace(s[b - 1])
  {
    b := |s|;
    if s != [] && Whitespace(s[|s| - 1]) {
      b := TrimRightIs(s[..|s| - 1]);
      assert s[..|s| - 1][..b] == s[..b];
    }
  }

  lemma PlainKey(t: string, k: nat, key: string)
    requires Cut(t) == k && t[..k] == key && ValidName(key)
    ensures KeyOf(t) == key
  {
  }

  lemma StarKey(t: string, k: nat, key: string)
    requires Cut(t) == k && t[..k] == ['*'] + key
    ensures KeyOf(t) == key
  {
    assert (['*'] + key)[1..] == key;
  }

  /** With a trial, the '<' stays inside the token: trimming can shorten the name from the left
      and the trial from the right. */
  lemma TokenWithTrial(name: string, e: Entry, trials: set<string>) returns (a: nat, b: nat)
    requires Renderable(name, e, trials) && e.trial.Some?
    ensures var t := Trim(Item(name, e));
            && a <= |name| && b <= |e.trial.value| && KeyOf(t) == name[a..]
            && TrialOf(t, trials) == Find(trials, e.trial.value[..b])
            && (a == 0 && b == |e.trial.value| ==> Trimmed(Item(name, e)))
  {
    var head := Head(name, e);
    var from;
    from, b := TrimWithTrial(head, e.trial.value);
    assert Item(name, e) == head + (['<'] + e.trial.value);
    var t := Trim(Item(name, e));
    assert t == head[from..] + (['<'] + e.trial.value[..b]);
    SplitToken(head[from..], e.trial.value[..b]);
    if e.state.UseDefault? {
      assert head[0] == '*';
      a := 0;
      assert head[from..] == ['*'] + name[a..];
      StarKey(t, |head|, name[a..]);
    } else {
      a := from;
      assert head == name;
      PlainKey(t, |head| - from, name[a..]);
    }
  }

  lemma TrimWithTrial(head: string, trial: string) returns (from: nat, b: nat)
    ensures from <= |head| && b <= |trial|
    ensures Trim(head + (['<'] + trial)) == head[from..] + (['<'] + trial[..b])
    ensures head != [] && !Whitespace(head[0]) ==> from == 0
    ensures from == 0 && b == |trial| ==> Trimmed(head + (['<'] + trial))
  {
    var item, k := head + (['<'] + trial), |head|;
    assert item[k] == '<' && !Whitespace('<') && |item| == k + 1 + |trial|;
    var to;
    from, to := TrimIs(item);
    assert from <= k < to;
    b := to - k - 1;
    Stretch(head, trial, from, b);
    if head != [] { assert item[0] == head[0]; }
  }

  lemma Stretch(head: string, trial: string, from: nat, b: nat)
    requires from <= |head| && b <= |trial|
    ensures (head + (['<'] + trial))[from..|head| + 1 + b] == head[from..] + (['<'] + trial[..b])
  {
  }

  lemma SplitToken(head: string, trial: string)
    requires forall i :: 0 <= i < |head| ==> head[i] != '<'
    ensures var t := head + (['<'] + trial);
            Cut(t) == |head| && t[..|head|] == head && t[|head| + 1..] == trial
  {
    CutAt(head + (['<'] + trial), |head|);
  }

  lemma TokenWithoutTrial(name: string, e: Entry, trials: set<string>) returns (a: nat, b: nat)
    requires Renderable(name, e, trials) && e.trial.None? && Trim(Item(name, e)) != []
    ensures var t := Trim(Item(name, e));
            && a <= b <= |name| && KeyOf(t) == name[a..b]
            && (a == 0 && b == |name| ==> Trimmed(Item(name, e)))
  {
    assert Item(name, e) == Head(name, e);
    if e.state.UseDefault? {
      assert Head(name, e) == ['*'] + name;
      b := TrimStarred(name);
      a := 0;
      assert name[..b] == name[a..b];
    } else {
      assert Head(name, e) == name;
      a, b := TrimPlain(name);
    }
  }

  lemma TrimPlain(name: string) returns (a: nat, b: nat)
    requires ValidName(name) && Trim(name) != []
    ensures a <= b <= |name| && KeyOf(Trim(name)) == name[a..b]
    ensures a == 0 && b == |name| ==> Trimmed(name)
  {
    a, b := TrimIs(name);
    CutNone(name[a..b]);
    PlainKey(name[a..b], b - a, name[a..b]);
  }

  lemma TrimStarred(name: string) returns (b: nat)
    requires ValidName(name)
    ensures b <= |name| && KeyOf(Trim(['*'] + name)) == name[..b]
    ensures b == |name| ==> Trimmed(['*'] + name)
  {
    var s := ['*'] + name;
    assert s[0] == '*' && !Whitespace('*');
    var from, to := TrimIs(s);
    b := to - 1;
    assert s[0..to] == ['*'] + name[..b];
    CutNone(s[0..to]);
    StarKey(s[0..to], to, name[..b]);
  }

  lemma CutNone(t: string)
    requires forall i :: 0 <= i < |t| ==> t[i] != '<'
    ensures Cut(t) == |t| && t[..|t|] == t
  {
    CutAt(t, |t|);
  }

  /** Trimming an item never lengthens the name; if it keeps the name but changes the item, it
      loses the trial. */
  lemma TokenShortens(name: string, e: Entry, trials: set<string>)
    requires Renderable(name, e, trials) && Trim(Item(name, e)) != []
    ensures var t := Trim(Item(name, e));
            && |KeyOf(t)| <= |name| && (|KeyOf(t)| == |name| ==> KeyOf(t) == name)
            && (!Trimmed(Item(name, e)) && KeyOf(t) == name ==> TrialOf(t, trials) != e.trial)
  {
    if e.trial.Some? {
      var a, b := TokenWithTrial(name, e, trials);
      assert a == 0 ==> name[a..] == name;
    } else {
      var a, b := TokenWithoutTrial(name, e, trials);
      assert a == 0 && b == |name| ==> name[a..b] == name;
    }
  }

  ghost predicate AllRenderable(table: Table, trials: set<string>) {
    forall n :: n in table ==> Renderable(n, table[n], trials)
  }

  lemma TokensAreTrimmedItems(order: seq<string>, table: Table, disabled: bool, trials: set<string>, t: string)
    requires Enumerates(order, table) && AllRenderable(table, trials)
    requires t in Tokens(Printed(order, table, disabled))
    ensures t != [] && exists m :: m in table && t == Trim(Item(m, table[m]))
  {
    var names := Listed(order, table, disabled);
    var items := Items(names, table);
    forall i | 0 <= i < |items| ensures CommaFree(items[i]) {
      assert names[i] in names;
      RenderableIsCommaFree(names[i], table[names[i]], trials);
    }
    PiecesAreItems(items);
    KeptFrom(Split(Joined(items), []), items);
    var p :| p in items && t == Trim(p);
    var i :| 0 <= i < |items| && items[i] == p;
    assert names[i] in names && t == Trim(Item(names[i], table[names[i]]));
  }

  lemma RenderableIsCommaFree(name: string, e: Entry, trials: set<string>)
    requires Renderable(name, e, trials)
    ensures CommaFree(Item(name, e))
  {
  }

  /** Every entry after a round trip comes from the trimmed item of some entry before it. */
  lemma ComesFrom(order: seq<string>, table: Table, trials: set<string>, n: string) returns (m: string)
    requires Enumerates(order, table) && AllRenderable(table, trials)
    requires n in Initialized(Printed(order, table, false), Printed(order, table, true), trials)
    ensures m in table && Trim(Item(m, table[m])) != [] && KeyOf(Trim(Item(m, table[m]))) == n
    ensures TrialOf(Trim(Item(m, table[m])), trials)
         == Initialized(Printed(order, table, false), Printed(order, table, true), trials)[n].trial
  {
    var on, off := Tokens(Printed(order, table, false)), Tokens(Printed(order, table, true));
    var first := RegisterTokens(map[], off, Disable, trials);
    var r := RegisterTokens(first, on, Enable, trials);
    Provenance(first, on, Enable, trials, n);
    var t: string;
    if n in first && first[n] == r[n] {
      Provenance(map[], off, Disable, trials, n);
      t :| t in off && KeyOf(t) == n && TrialOf(t, trials) == r[n].trial;
      TokensAreTrimmedItems(order, table, true, trials, t);
    } else {
      t :| t in on && KeyOf(t) == n && TrialOf(t, trials) == r[n].trial;
      TokensAreTrimmedItems(order, table, false, trials, t);
    }
    m :| m in table && t == Trim(Item(m, table[m]));
  }

  /** If the table came back, an entry with an untrimmed item would stem from one with a longer
      name, itself untrimmed, and so on without end. */
  lemma {:induction false} UntrimmedIsLost(order: seq<string>, table: Table, trials: set<string>, n: string, bound: nat)
    requires Enumerates(order, table) && AllRenderable(table, trials)
    requires forall m :: m in table ==> |m| <= bound
    requires n in table && !Trimmed(Item(n, table[n]))
    ensures Initialized(Printed(order, table, false), Printed(order, table, true), trials) != table
    decreases bound - |n|
  {
    if Initialized(Printed(order, table, false), Printed(order, table, true), trials) == table {
      var m := ComesFrom(order, table, trials, n);
      SourceIsLonger(m, table[m], n, trials);
      if m != n {
        UntrimmedIsLost(order, table, trials, m, bound);
      }
    }
  }

  lemma SourceIsLonger(m: string, e: Entry, n: string, trials: set<string>)
    requires Renderable(m, e, trials) && Trim(Item(m, e)) != [] && KeyOf(Trim(Item(m, e))) == n
    ensures m != n ==> |n| < |m| && !Trimmed(Item(m, e))
    ensures m == n && !Trimmed(Item(m, e)) ==> TrialOf(Trim(Item(m, e)), trials) != e.trial
  {
    TokenShortens(m, e, trials);
    if Trimmed(Item(m, e)) { TrimmedKeepsName(m, e, trials); }
  }

  lemma TrimmedKeepsName(m: string, e: Entry, trials: set<string>)
    requires Renderable(m, e, trials) && Trimmed(Item(m, e))
    ensures KeyOf(Trim(Item(m, e))) == m
  {
    ItemCuts(m, e, trials);
    var k := |Head(m, e)|;
    assert Trim(Item(m, e)) == Item(m, e);
    if e.state.UseDefault? { StarKey(Item(m, e), k, m); } else {
      assert Head(m, e) == m;
      PlainKey(Item(m, e), k, m);
    }
  }

  function Longest(order: seq<string>): (l: nat)
    ensures forall n :: n in order ==> |n| <= l
  {
    if order == [] then 0
    else
      var l := Longest(order[1..]);
      if |order[0]| > l then |order[0]| else l
  }

  /** A table of valid names and findable trials comes back exactly when every printed item is
      non-empty and has no whitespace at its ends. */
  lemma RoundTripsExactly(order: seq<string>, table: Table, trials: set<string>)
    requires Enumerates(order, table) && AllRenderable(table, trials)
    ensures Initialized(Printed(order, table, false), Printed(order, table, true), trials) == table
       <==> forall n :: n in table ==> Trimmed(Item(n, table[n]))
  {
    if forall n :: n in table ==> Trimmed(Item(n, table[n])) {
      RoundTrip(order, table, trials);
    } else {
      var n :| n in table && !Trimmed(Item(n, table[n]));
      UntrimmedIsLost(order, table, trials, n, Longest(order));
    }
  }

  /** What an item looks like: a star before a default, the trial after '<'. */
  lemma ItemsLookLike(name: string, trial: string, state: OverrideState)
    requires !state.UseDefault?
    ensures Item(name, Entry(state, None)) == name && Item(name, Entry(state, Some(trial))) == name + "<" + trial
    ensures Item(name, Entry(UseDefault, None)) == "*" + name
    ensures Item(name, Entry(UseDefault, Some(trial))) == "*" + name + "<" + trial
  {
  }

  /** And a list: a comma between items. */
  lemma ListsLookLike(items: seq<string>, last: string)
    requires items != [] && forall i :: 0 <= i < |items| ==> items[i] != []
    ensures Joined([last]) == last && Joined(items + [last]) == Joined(items) + "," + last
  {
    assert [last][..0] == [] && (items + [last])[..|items|] == items;
    assert Joined(items) != [] by { assert items[|items| - 1] != []; }
  }

  // What two lists mean together

  /** The first token for a name, or the length. */
  function FirstFor(tokens: seq<string>, name: string): (i: nat)
    ensures i <= |tokens| && (i < |tokens| ==> KeyOf(tokens[i]) == name)
    ensures forall j :: 0 <= j < i ==> KeyOf(tokens[j]) != name
  {
    if tokens == [] || KeyOf(tokens[0]) == name then 0 else 1 + FirstFor(tokens[1..], name)
  }

  /** The entry a token asks for: the state of its list, or the default for a leading star. */
  function Asked(token: string, state: OverrideState, trials: set<string>): Entry {
    Entry(if token != [] && token[0] == '*' then UseDefault else state, TrialOf(token, trials))
  }

  lemma TokenRegisters(table: Table, token: string, state: OverrideState, trials: set<string>)
    ensures var r := RegisterToken(table, token, state, trials);
            r == if KeyOf(token) in table then table else table[KeyOf(token) := Asked(token, state, trials)]
  {
    var k := Cut(token);
    assert token[..k] != [] ==> token[..k][0] == token[0];
    assert token != [] && token[0] == '*' ==> k > 0;
  }

  lemma {:induction false} FirstTokenCounts(table: Table, tokens: seq<string>, state: OverrideState,
                                            trials: set<string>, name: string)
    ensures var r, i := RegisterTokens(table, tokens, state, trials), FirstFor(tokens, name);
            if name in table then name in r && r[name] == table[name]
            else if i < |tokens| then name in r && r[name] == Asked(tokens[i], state, trials)
            else name !in r
    decreases |tokens|
  {
    if tokens != [] {
      TokenRegisters(table, tokens[0], state, trials);
      FirstTokenCounts(RegisterToken(table, tokens[0], state, trials), tokens[1..], state, trials, name);
    }
  }

  /** A name that the disable list mentions has what its first token there asks for; one that only
      the enable list mentions has what its first token there asks for; no other name is there. */
  predicate Follows(table: Table, enable: seq<string>, disable: seq<string>, trials: set<string>, name: string) {
    var off, on := FirstFor(disable, name), FirstFor(enable, name);
    if off < |disable| then name in table && table[name] == Asked(disable[off], Disable, trials)
    else if on < |enable| then name in table && table[name] == Asked(enable[on], Enable, trials)
    else name !in table
  }

  /** Disabled features take precedence, whatever the enable list holds. */
  lemma DisabledFirst(enable: string, disable: string, trials: set<string>, name: string)
    ensures Follows(Initialized(enable, disable, trials), Tokens(enable), Tokens(disable), trials, name)
  {
    var off := RegisterTokens(map[], Tokens(disable), Disable, trials);
    FirstTokenCounts(map[], Tokens(disable), Disable, trials, name);
    FirstTokenCounts(off, Tokens(enable), Enable, trials, name);
  }

  /** Whatever the lists name, only trials that exist end up in the table. */
  lemma TrialsExist(enable: string, disable: string, trials: set<string>, name: string)
    requires name in Initialized(enable, disable, trials)
    ensures var trial := Initialized(enable, disable, trials)[name].trial; trial.Some? ==> trial.value in trials
  {
    DisabledFirst(enable, disable, trials, name);
  }

  /** The six characters of kWhitespaceASCII. */
  lemma WhitespaceIs(c: char)
    ensures Whitespace(c) <==> c in ['\t', '\n', '\U{b}', '\U{c}', '\r', ' ']
  {
  }

  /** A list without a comma is its trimmed text, or nothing. */
  lemma TokensOfOne(piece: string)
    requires CommaFree(piece)
    ensures Tokens(piece) == if Trim(piece) == [] then [] else [Trim(piece)]
  {
    SplitPlain(piece, []);
    assert Split(piece, []) == [piece] by { assert [] + piece == piece; }
    assert [piece][1..] == [] && Kept([piece][1..]) == [];
    assert Kept([piece]) == (if Trim(piece) == [] then [] else [Trim(piece)]) + [];
  }

  /** A comma separates a list into two that are read on their own. */
  lemma TokensOfTwo(a: string, b: string)
    ensures Tokens(a + ([','] + b)) == Tokens(a) + Tokens(b)
  {
    SplitAppend(a, b, []);
    KeptSplit(Split(a, []), Split(b, []));
  }

  lemma {:induction false} KeptSplit(a: seq<string>, b: seq<string>)
    ensures Kept(a + b) == Kept(a) + Kept(b)
  {
    if a == [] {
      assert a + b == b;
    } else {
      assert (a + b)[0] == a[0] && (a + b)[1..] == a[1..] + b;
      KeptSplit(a[1..], b);
    }
  }

  // The class

  /** The tail of GetFeatureOverridesImpl's loop: separator, star, name, trial. */
  method AppendEntry(list: string, name: string, e: Entry) returns (r: string)
    ensures r == Append(list, Item(name, e))
  {
    r := list;
    if r != [] { r := r + [',']; }
    if e.state.UseDefault? { r := r + ['*']; }
    r := r + name;
    if e.trial.Some? {
      r := r + ['<'];
      r := r + e.trial.value;
    }
  }

  class FeatureList {
    var overrides: Table

    constructor ()
      ensures overrides == map[]
    {
      overrides := map[];
    }

    method RegisterOverride(name: string, state: OverrideState, trial: Option<string>)
      modifies this
      ensures overrides == Registered(old(overrides), name, state, trial)
    {
      var key, s := name, state;
      if name != [] && name[0] == '*' {
        key, s := name[1..], UseDefault;
      }
      if key !in overrides {
        overrides := overrides[key := Entry(s, trial)];
      }
    }

    method RegisterOverridesFromCommandLine(list: string, state: OverrideState, trials: set<string>)
      modifies this
      ensures overrides == RegisterTokens(old(overrides), Tokens(list), state, trials)
    {
      var tokens, i := Tokens(list), 0;
      while i < |tokens|
        invariant 0 <= i <= |tokens|
        invariant RegisterTokens(overrides, tokens[i..], state, trials) ==
                  RegisterTokens(old(overrides), tokens, state, trials)
      {
        assert tokens[i..][0] == tokens[i] && tokens[i..][1..] == tokens[i + 1..];
        RegisterValue(tokens[i], state, trials);
        i := i + 1;
      }
    }

    /** One turn of the loop of RegisterOverridesFromCommandLine */
    method RegisterValue(value: string, state: OverrideState, trials: set<string>)
      modifies this
      ensures overrides == RegisterToken(old(overrides), value, state, trials)
    {
      var pos := Cut(value);
      if pos < |value| {
        RegisterOverride(value[..pos], state, Find(trials, value[pos + 1..]));
      } else {
        assert value[..pos] == value;
        RegisterOverride(value, state, None);
      }
    }

    method InitializeFromCommandLine(enable: string, disable: string, trials: set<string>)
      requires overrides == map[]
      modifies this
      ensures overrides == Initialized(enable, disable, trials)
      ensures forall name :: Follows(overrides, Tokens(enable), Tokens(disable), trials, name)
    {
      forall name ensures Follows(Initialized(enable, disable, trials), Tokens(enable), Tokens(disable), trials, name) {
        DisabledFirst(enable, disable, trials, name);
      }
      RegisterOverridesFromCommandLine(disable, Disable, trials);
      RegisterOverridesFromCommandLine(enable, Enable, trials);
    }

    /** GetFeatureOverridesImpl over every entry; `order` is the order the map is walked in. */
    method GetFeatureOverrides(order: seq<string>) returns (enable: string, disable: string)
      requires Enumerates(order, overrides)
      ensures enable == Printed(order, overrides, false) && disable == Printed(order, overrides, true)
    {
      enable, disable := [], [];
      var i := 0;
      assert forall n :: n in order ==> n in overrides;
      while i < |order|
        modifies {}
        invariant 0 <= i <= |order|
        invariant enable == Printed(order[..i], overrides, false)
        invariant disable == Printed(order[..i], overrides, true)
      {
        var name := order[i];
        PrintedNext(order, overrides, i, true);
        PrintedNext(order, overrides, i, false);
        if overrides[name].state.Disable? {
          disable := AppendEntry(disable, name, overrides[name]);
        } else {
          enable := AppendEntry(enable, name, overrides[name]);
        }
        i := i + 1;
      }
      assert order[..i] == order;
    }
  }

  /** The overrides of one list printed and given to another, through the objects: they come back
      exactly when every printed item is non-empty and has no whitespace at its ends. */
  method CopyThroughCommandLine(from: FeatureList, order: seq<string>, trials: set<string>) returns (to: FeatureList)
    requires Enumerates(order, from.overrides) && AllRenderable(from.overrides, trials)
    ensures fresh(to)
    ensures to.overrides == from.overrides
       <==> forall n :: n in from.overrides ==> Trimmed(Item(n, from.overrides[n]))
  {
    var enable, disable := from.GetFeatureOverrides(order);
    to := new FeatureList();
    to.InitializeFromCommandLine(enable, disable, trials);
    RoundTripsExactly(order, from.overrides, trials);
  }

  lemma PrintedNext(order: seq<string>, table: Table, i: nat, disabled: bool)
    requires i < |order| && forall n :: n in order ==> n in table
    ensures Printed(order[..i + 1], table, disabled)
         == if Disabled(table, order[i]) == disabled
            then Append(Printed(order[..i], table, disabled), Item(order[i], table[order[i]]))
            else Printed(order[..i], table, disabled)
  {
    var names := Listed(order[..i], table, disabled);
    assert order[..i + 1][..i] == order[..i];
    if Disabled(table, order[i]) == disabled {
      assert (names + [order[i]])[..|names|] == names;
      var items := Items(names, table);
      assert (items + [Item(order[i], table[order[i]])])[..|items|] == items;
    }
  }
}
