/**
  The tokenizer and its bounded cache.  The regular expressions are any table of prefix
  matchers that consume at least one character when they match.
 */
module Tokenizer {
  import opened Wrappers

  /** How many characters of the text's beginning match, if any. */
  type Matcher = string -> Option<nat>

  ghost predicate Proper(m: Matcher) {
    forall s: string {:trigger m(s)} :: m(s).Some? ==> 0 < m(s).value <= |s|
  }

  /** The expressions for commas and combinators, and for the filters in the order they are tried. */
  datatype Table = Table(comma: Matcher, combinators: Matcher, filters: seq<Matcher>)

  ghost predicate Sensible(t: Table) {
    Proper(t.comma) && Proper(t.combinators) && forall k :: 0 <= k < |t.filters| ==> Proper(t.filters[k])
  }

  datatype Kind = Combinator | Filter(index: nat)

  datatype Token = Token(value: string, kind: Kind)

  type Group = seq<Token>

  /** The text of a group's tokens, put together again. */
  method ToSelector(tokens: Group) returns (selector: string)
    ensures selector == Spelling(tokens)
  {
    selector := "";
    var i := 0;
    while i < |tokens|
      invariant 0 <= i <= |tokens|
      invariant selector == Spelling(tokens[..i])
    {
      selector := selector + tokens[i].value;
      SpellingSnoc(tokens[..i], tokens[i]);
      assert tokens[..i + 1] == tokens[..i] + [tokens[i]];
      i := i + 1;
    }
    assert tokens[..i] == tokens;
  }

  function Spelling(tokens: Group): string {
    if tokens == [] then "" else Spelling(tokens[..|tokens| - 1]) + tokens[|tokens| - 1].value
  }

  // ---------- one round ----------

  /** Every filter is tried once, in order, each on what the ones before it left. */
  function ApplyFilters(t: Table, i: nat, s: string, tokens: Group): (r: (Group, string))
    requires i <= |t.filters| && Sensible(t)
    ensures |r.1| <= |s| && (r.0 == tokens || |r.1| < |s|)
    ensures r.0 == tokens ==> r.1 == s
    ensures |r.0| >= |tokens| && (r.0 == tokens <==> |r.0| == |tokens|)
    decreases |t.filters| - i
  {
    if i == |t.filters| then (tokens, s)
    else
      var (tried, rest) := TryOne(t.filters[i], Filter(i), s, tokens);
      ApplyFilters(t, i + 1, rest, tried)
  }

  function TryOne(m: Matcher, kind: Kind, s: string, tokens: Group): (r: (Group, string))
    requires Proper(m)
    ensures |r.1| <= |s| && (r.0 == tokens || |r.1| < |s|)
    ensures r.0 == tokens ==> r.1 == s
    ensures |r.0| >= |tokens| && (r.0 == tokens <==> |r.0| == |tokens|)
  {
    match m(s) case None => (tokens, s) case Some(n) => (tokens + [Token(s[..n], kind)], s[n..])
  }

  function Round(t: Table, s: string, tokens: Group): (r: (Group, string))
    requires Sensible(t)
    ensures |r.1| <= |s| && (r.0 == tokens || |r.1| < |s|)
    ensures r.0 == tokens ==> r.1 == s
  {
    var (combined, rest) := TryOne(t.combinators, Combinator, s, tokens);
    ApplyFilters(t, 0, rest, combined)
  }

  /** A new group starts at the beginning and after a comma; a comma that ends the text is left unread. */
  function StartGroup(t: Table, s: string, first: bool, groups: seq<Group>): (r: (seq<Group>, string))
    requires Sensible(t) && (first || groups != [])
    ensures |r.1| <= |s| && r.0 != []
  {
    if first then (groups + [[]], s)
    else
      match t.comma(s)
      case None => (groups, s)
      case Some(n) => (groups + [[]], if s[n..] != [] then s[n..] else s)
  }

  /** What tokenizing comes to: the groups, and the text that could not be read. */
  function Lex(t: Table, s: string, first: bool, groups: seq<Group>): (seq<Group>, string)
    requires Sensible(t) && (first || groups != [])
    decreases |s|
  {
    if s == [] then (groups, s)
    else
      var (grown, left, matched) := Pass(t, s, first, groups);
      if matched then Lex(t, left, false, grown) else (grown, left)
  }

  /** One turn of the loop. */
  function Pass(t: Table, s: string, first: bool, groups: seq<Group>): (r: (seq<Group>, string, bool))
    requires Sensible(t) && (first || groups != [])
    ensures r.0 != [] && |r.1| <= |s| && (r.2 ==> |r.1| < |s|)
  {
    var (started, rest) := StartGroup(t, s, first, groups);
    var last := |started| - 1;
    var (tokens, left) := Round(t, rest, started[last]);
    (started[last := tokens], left, tokens != started[last])
  }

  function Tokenized(t: Table, selector: string): (seq<Group>, string)
    requires Sensible(t)
  {
    Lex(t, selector, true, [])
  }

  // ---------- what is read, and where ----------

  /** What a matcher takes at an offset; the matchers in the order a round tries them are the combinators, then the filters. */
  function TakenAt(t: Table, text: string, at: nat, rank: nat): Option<nat>
    requires at <= |text| && rank <= |t.filters|
  {
    if rank == 0 then t.combinators(text[at..]) else t.filters[rank - 1](text[at..])
  }

  function KindAt(rank: nat): Kind {
    if rank == 0 then Combinator else Filter(rank - 1)
  }

  function RankOf(kind: Kind): nat {
    match kind case Combinator => 0 case Filter(index) => index + 1
  }

  /** None of these matchers matches the text at the offset. */
  ghost predicate NoneMatch(t: Table, text: string, at: nat, low: nat, high: nat)
    requires at <= |text| && high <= |t.filters| + 1
  {
    forall rank: nat :: low <= rank < high ==> TakenAt(t, text, at, rank).None?
  }

  /**
    A round that tries the matchers from some rank on reads these tokens between two offsets.
    A token is what the matcher of its kind takes at the token's own offset; the matchers
    tried before it, and after the last token the remaining ones, do not match where they are tried.
   */
  ghost predicate RoundAt(t: Table, text: string, from: nat, rank: nat, tokens: Group, end: nat)
    requires from <= |text| && rank <= |t.filters| + 1
    decreases |tokens|
  {
    if tokens == [] then end == from && NoneMatch(t, text, from, rank, |t.filters| + 1)
    else
      var own, n := RankOf(tokens[0].kind), |tokens[0].value|;
      && rank <= own <= |t.filters| && NoneMatch(t, text, from, rank, own)
      && TakenAt(t, text, from, own) == Some(n) && n <= |text| - from && tokens[0].value == text[from..from + n]
      && RoundAt(t, text, from + n, own + 1, tokens[1..], end)
  }

  /** One turn of the loop: the group its tokens belong to, where it starts, and where its round starts and ends. */
  datatype Turn = Turn(group: nat, at: nat, from: nat, end: nat, tokens: Group)

  /** A turn reads on where the one before it ended; it starts the next group if there is a comma, which is skipped unless it ends the text. */
  ghost predicate Follows(t: Table, text: string, before: Turn, turn: Turn) {
    && before.tokens != [] && turn.at == before.end < |text|
    && match t.comma(text[turn.at..])
       case None => turn.group == before.group && turn.from == turn.at
       case Some(n) => turn.group == before.group + 1 && turn.from == if turn.at + n < |text| then turn.at + n else turn.at
  }

  ghost predicate TurnsAt(t: Table, text: string, turns: seq<Turn>) {
    && (turns != [] ==> text != "" && turns[0].group == turns[0].at == turns[0].from == 0)
    && (forall k :: 0 <= k < |turns| ==>
      && turns[k].from <= turns[k].end <= |text|
      && RoundAt(t, text, turns[k].from, 0, turns[k].tokens, turns[k].end))
    && forall k :: 0 < k < |turns| ==> Follows(t, text, turns[k - 1], turns[k])
  }

  /** The tokens of one group, in order. */
  function TokensOf(turns: seq<Turn>, group: nat): Group {
    if turns == [] then []
    else
      var last := turns[|turns| - 1];
      TokensOf(turns[..|turns| - 1], group) + (if last.group == group then last.tokens else [])
  }

  ghost predicate GroupsOf(turns: seq<Turn>, groups: seq<Group>) {
    && |groups| == (if turns == [] then 0 else turns[|turns| - 1].group + 1)
    && (forall k :: 0 <= k < |turns| ==> turns[k].group < |groups|)
    && forall g :: 0 <= g < |groups| ==> groups[g] == TokensOf(turns, g)
  }

  /** A reading of the whole text: it goes on until everything is read, or nothing more can be. */
  ghost predicate Reading(t: Table, text: string, turns: seq<Turn>, groups: seq<Group>, rest: string) {
    && TurnsAt(t, text, turns) && GroupsOf(turns, groups)
    && (turns == [] ==> rest == text == "")
    && (turns != [] ==>
      var last := turns[|turns| - 1];
      rest == text[last.end..] && (rest == "" || last.tokens == []))
  }

  ghost predicate Reads(t: Table, text: string, groups: seq<Group>, rest: string) {
    exists turns :: Reading(t, text, turns, groups, rest)
  }

  lemma NoneMatchMore(t: Table, text: string, at: nat, low: nat, high: nat)
    requires at <= |text| && low < high <= |t.filters| + 1 && TakenAt(t, text, at, low).None?
    requires NoneMatch(t, text, at, low + 1, high)
    ensures NoneMatch(t, text, at, low, high)
  {
  }

  /** A matcher that does not match may as well be tried first. */
  lemma RoundSkips(t: Table, text: string, from: nat, rank: nat, tokens: Group, end: nat)
    requires from <= |text| && rank <= |t.filters| && TakenAt(t, text, from, rank).None?
    requires RoundAt(t, text, from, rank + 1, tokens, end)
    ensures RoundAt(t, text, from, rank, tokens, end)
  {
    NoneMatchMore(t, text, from, rank, if tokens == [] then |t.filters| + 1 else RankOf(tokens[0].kind));
  }

  /** What a round reads from an offset on, from some rank on, and where it ends. */
  ghost function RoundFrom(t: Table, text: string, from: nat, rank: nat): (r: (Group, nat))
    requires Sensible(t) && from <= |text| && rank <= |t.filters| + 1
    ensures from <= r.1 <= |text|
    decreases |t.filters| + 1 - rank
  {
    if rank == |t.filters| + 1 then ([], from)
    else
      match TakenAt(t, text, from, rank)
      case None => RoundFrom(t, text, from, rank + 1)
      case Some(n) =>
        var (more, end) := RoundFrom(t, text, from + n, rank + 1);
        ([Token(text[from..from + n], KindAt(rank))] + more, end)
  }

  lemma {:induction false} RoundIsAt(t: Table, text: string, from: nat, rank: nat)
    requires Sensible(t) && from <= |text| && rank <= |t.filters| + 1
    ensures RoundAt(t, text, from, rank, RoundFrom(t, text, from, rank).0, RoundFrom(t, text, from, rank).1)
    decreases |t.filters| + 1 - rank
  {
    if rank <= |t.filters| {
      match TakenAt(t, text, from, rank)
      case None =>
        RoundIsAt(t, text, from, rank + 1);
        RoundSkips(t, text, from, rank, RoundFrom(t, text, from, rank).0, RoundFrom(t, text, from, rank).1);
      case Some(n) =>
        RoundIsAt(t, text, from + n, rank + 1);
        assert RoundFrom(t, text, from, rank).0[1..] == RoundFrom(t, text, from + n, rank + 1).0;
    }
  }

  /** Trying one matcher: how far it gets, and its token. */
  lemma OneTried(m: Matcher, kind: Kind, text: string, from: nat, tokens: Group)
    requires Proper(m) && from <= |text|
    ensures TryOne(m, kind, text[from..], tokens) ==
      match m(text[from..])
      case None => (tokens, text[from..])
      case Some(n) => (tokens + [Token(text[from..from + n], kind)], text[from + n..])
  {
    var taken := m(text[from..]);
    if taken.Some? {
      assert text[from..][..taken.value] == text[from..from + taken.value] && text[from..][taken.value..] == text[from + taken.value..];
    }
  }

  lemma Rebracket(tokens: Group, token: Token, more: Group)
    ensures (tokens + [token]) + more == tokens + ([token] + more)
  {
  }

  lemma {:induction false} FiltersRead(t: Table, i: nat, text: string, from: nat, tokens: Group)
    requires i <= |t.filters| && Sensible(t) && from <= |text|
    ensures var (read, end) := RoundFrom(t, text, from, i + 1); ApplyFilters(t, i, text[from..], tokens) == (tokens + read, text[end..])
    decreases |t.filters| - i
  {
    if i == |t.filters| {
      assert tokens + [] == tokens;
    } else {
      FilterStep(t, i, text[from..], tokens);
      OneTried(t.filters[i], Filter(i), text, from, tokens);
      match t.filters[i](text[from..])
      case None => FiltersRead(t, i + 1, text, from, tokens);
      case Some(n) =>
        var token := Token(text[from..from + n], Filter(i));
        FiltersRead(t, i + 1, text, from + n, tokens + [token]);
        Rebracket(tokens, token, RoundFrom(t, text, from + n, i + 2).0);
    }
  }

  lemma RoundReads(t: Table, text: string, from: nat, tokens: Group)
    requires Sensible(t) && from <= |text|
    ensures var (read, end) := RoundFrom(t, text, from, 0); Round(t, text[from..], tokens) == (tokens + read, text[end..])
  {
    OneTried(t.combinators, Combinator, text, from, tokens);
    var taken := t.combinators(text[from..]);
    if taken.None? {
      RoundUncombined(t, text, from, tokens);
    } else {
      RoundCombined(t, text, from, tokens, taken.value);
    }
  }

  lemma RoundUncombined(t: Table, text: string, from: nat, tokens: Group)
    requires Sensible(t) && from <= |text| && t.combinators(text[from..]).None?
    ensures var (read, end) := RoundFrom(t, text, from, 0); Round(t, text[from..], tokens) == (tokens + read, text[end..])
  {
    FiltersRead(t, 0, text, from, tokens);
  }

  lemma RoundCombined(t: Table, text: string, from: nat, tokens: Group, n: nat)
    requires Sensible(t) && from <= |text| && t.combinators(text[from..]) == Some(n) && n <= |text| - from
    requires TryOne(t.combinators, Combinator, text[from..], tokens) == (tokens + [Token(text[from..from + n], Combinator)], text[from + n..])
    ensures var (read, end) := RoundFrom(t, text, from, 0); Round(t, text[from..], tokens) == (tokens + read, text[end..])
  {
    var token := Token(text[from..from + n], Combinator);
    FiltersRead(t, 0, text, from + n, tokens + [token]);
    Rebracket(tokens, token, RoundFrom(t, text, from + n, 1).0);
  }

  lemma {:induction false} TokensOfNone(turns: seq<Turn>, group: nat)
    requires forall k :: 0 <= k < |turns| ==> turns[k].group < group
    ensures TokensOf(turns, group) == []
  {
    if turns != [] {
      TokensOfNone(turns[..|turns| - 1], group);
    }
  }

  /** The groups after one more turn: a new group, or a longer last one. */
  lemma OneMoreTurn(turns: seq<Turn>, turn: Turn, groups: seq<Group>, grown: seq<Group>)
    requires GroupsOf(turns, groups)
    requires if turn.group == |groups| then grown == groups + [turn.tokens]
             else groups != [] && turn.group == |groups| - 1 && grown == groups[|groups| - 1 := groups[|groups| - 1] + turn.tokens]
    ensures GroupsOf(turns + [turn], grown)
  {
    var longer := turns + [turn];
    assert longer[..|turns|] == turns;
    if turn.group == |groups| {
      TokensOfNone(turns, turn.group);
    }
    forall g | 0 <= g < |grown|
      ensures grown[g] == TokensOf(longer, g)
    {
      assert g < |groups| ==> groups[g] == TokensOf(turns, g);
    }
  }

  /** A turn may come next, at this offset. */
  ghost predicate Going(text: string, turns: seq<Turn>, at: nat) {
    at <= |text| && if turns == [] then at == 0 else at == turns[|turns| - 1].end && turns[|turns| - 1].tokens != []
  }

  /** Where the round of a turn starts, and for which group. */
  lemma StartReads(t: Table, text: string, at: nat, turns: seq<Turn>, groups: seq<Group>) returns (turn: Turn)
    requires Sensible(t) && TurnsAt(t, text, turns) && GroupsOf(turns, groups) && at < |text| && Going(text, turns, at)
    ensures var (started, rest) := StartGroup(t, text[at..], turns == [], groups);
      && turn == Turn(|started| - 1, at, |text| - |rest|, 0, []) && turn.from <= |text| && rest == text[turn.from..]
      && started == (if turn.group == |groups| then groups + [[]] else groups) && turn.group <= |groups|
    ensures if turns == [] then turn.group == turn.from == 0 else Follows(t, text, turns[|turns| - 1], turn)
  {
    var (started, rest) := StartGroup(t, text[at..], turns == [], groups);
    turn := Turn(|started| - 1, at, |text| - |rest|, 0, []);
    var comma := t.comma(text[at..]);
    if turns != [] && comma.Some? {
      assert text[at..][comma.value..] == text[at + comma.value..];
    }
  }

  /** What one pass of the loop does to the groups and the text, in terms of offsets. */
  lemma PassMoves(t: Table, text: string, at: nat, turns: seq<Turn>, groups: seq<Group>, turn: Turn, read: Group, end: nat)
    requires Sensible(t) && at < |text| && (turns == [] || groups != [])
    requires var (started, rest) := StartGroup(t, text[at..], turns == [], groups);
      && turn.from <= |text| && rest == text[turn.from..] && (read, end) == RoundFrom(t, text, turn.from, 0)
      && turn.group == |started| - 1 <= |groups| && started == if turn.group == |groups| then groups + [[]] else groups
    ensures var (grown, left, matched) := Pass(t, text[at..], turns == [], groups);
      && end <= |text| && left == text[end..] && matched == (read != [])
      && grown == (if turn.group == |groups| then groups + [read] else groups[|groups| - 1 := groups[|groups| - 1] + read])
  {
    var (started, rest) := StartGroup(t, text[at..], turns == [], groups);
    var last := |started| - 1;
    RoundReads(t, text, turn.from, started[last]);
    GrownLast(groups, started, read, turn.group);
  }

  lemma GrownLast(groups: seq<Group>, started: seq<Group>, read: Group, group: nat)
    requires group == |started| - 1 <= |groups| && started == if group == |groups| then groups + [[]] else groups
    ensures started[group := started[group] + read] ==
            if group == |groups| then groups + [read] else groups[|groups| - 1 := groups[|groups| - 1] + read]
  {
    assert [] + read == read;
  }

  /** One pass of the loop is one turn. */
  lemma PassReads(t: Table, text: string, at: nat, turns: seq<Turn>, groups: seq<Group>) returns (turn: Turn)
    requires Sensible(t) && TurnsAt(t, text, turns) && GroupsOf(turns, groups) && at < |text| && Going(text, turns, at)
    ensures var (grown, left, matched) := Pass(t, text[at..], turns == [], groups);
      && TurnsAt(t, text, turns + [turn]) && GroupsOf(turns + [turn], grown)
      && turn.end <= |text| && left == text[turn.end..] && matched == (turn.tokens != [])
  {
    turn := StartReads(t, text, at, turns, groups);
    var (read, end) := RoundFrom(t, text, turn.from, 0);
    RoundIsAt(t, text, turn.from, 0);
    PassMoves(t, text, at, turns, groups, turn, read, end);
    turn := turn.(tokens := read, end := end);
    OneMoreTurn(turns, turn, groups, Pass(t, text[at..], turns == [], groups).0);
    TurnsLonger(t, text, turns, turn);
  }

  lemma TurnsLonger(t: Table, text: string, turns: seq<Turn>, turn: Turn)
    requires TurnsAt(t, text, turns) && turn.from <= turn.end <= |text| && RoundAt(t, text, turn.from, 0, turn.tokens, turn.end)
    requires if turns == [] then text != "" && turn.group == turn.at == turn.from == 0 else Follows(t, text, turns[|turns| - 1], turn)
    ensures TurnsAt(t, text, turns + [turn])
  {
  }

  lemma {:induction false} LexReads(t: Table, text: string, at: nat, turns: seq<Turn>, groups: seq<Group>) returns (all: seq<Turn>)
    requires Sensible(t) && TurnsAt(t, text, turns) && GroupsOf(turns, groups) && Going(text, turns, at)
    ensures var (r, rest) := Lex(t, text[at..], turns == [], groups); Reading(t, text, all, r, rest)
    decreases |text| - at
  {
    all := turns;
    if at < |text| {
      var (grown, left, matched) := Pass(t, text[at..], turns == [], groups);
      var turn := PassReads(t, text, at, turns, groups);
      all := turns + [turn];
      if matched {
        all := LexReads(t, text, turn.end, all, grown);
      }
    }
  }

  /**
    What tokenizing reads, told by offsets in the selector.  A new group starts at the
    beginning and wherever the comma matcher matches at the start of a turn, and nowhere
    else; every token is what the first matcher that matches there takes; and reading stops
    only at the end or where no matcher matches.
   */
  lemma TokenizedReads(t: Table, selector: string)
    requires Sensible(t)
    ensures var (groups, rest) := Tokenized(t, selector); Reads(t, selector, groups, rest)
  {
    var turns := LexReads(t, selector, 0, [], []);
    assert selector[0..] == selector;
    var (groups, rest) := Tokenized(t, selector);
    assert Reading(t, selector, turns, groups, rest);
  }

  // ---------- the cached tokenizer ----------

  datatype Outcome = Excess(length: nat) | Groups(groups: seq<Group>) | Error

  /** What a call must return, cache or no cache. */
  function Expected(t: Table, selector: string, parseOnly: bool): Outcome
    requires Sensible(t)
  {
    var (groups, rest) := Tokenized(t, selector);
    if parseOnly then Excess(|rest|) else if rest != [] then Error else Groups(groups)
  }

  ghost predicate Right(t: Table, selector: string, groups: seq<Group>)
    requires Sensible(t)
  {
    Tokenized(t, selector) == (groups, "")
  }

  ghost predicate AllRight(t: Table, cache: map<string, seq<Group>>)
    requires Sensible(t)
  {
    forall k :: k in cache ==> Right(t, k, cache[k])
  }

  ghost predicate KeysOf(keys: seq<string>, cache: map<string, seq<Group>>) {
    && (forall i, j :: 0 <= i < j < |keys| ==> keys[i] != keys[j])
    && forall k :: k in cache <==> k in keys
  }

  lemma KeysGrow(keys: seq<string>, cache: map<string, seq<Group>>, selector: string, groups: seq<Group>)
    requires KeysOf(keys, cache) && selector !in cache
    ensures KeysOf(keys + [selector], cache[selector := groups])
  {
  }

  lemma KeysShift(keys: seq<string>, cache: map<string, seq<Group>>)
    requires KeysOf(keys, cache) && keys != []
    ensures KeysOf(keys[1..], cache - {keys[0]})
  {
    assert keys == [keys[0]] + keys[1..];
  }

  lemma RightAfterStore(t: Table, cache: map<string, seq<Group>>, dropped: set<string>, selector: string, groups: seq<Group>)
    requires Sensible(t) && AllRight(t, cache) && Right(t, selector, groups)
    ensures AllRight(t, (cache - dropped)[selector := groups])
  {
  }

  class Lexer {
    const table: Table
    const cacheLength: nat
    var keys: seq<string>
    var cache: map<string, seq<Group>>

    /** Only complete readings are stored; `keys` lists the stored selectors, oldest first. */
    ghost predicate Valid()
      reads this
    {
      && Sensible(table) && cacheLength > 0
      && |keys| <= cacheLength && KeysOf(keys, cache)
      && AllRight(table, cache)
    }

    constructor (table: Table, cacheLength: nat)
      requires Sensible(table) && cacheLength > 0
      ensures Valid() && this.table == table
    {
      this.table, this.cacheLength, keys, cache := table, cacheLength, [], map[];
    }

    method Store(selector: string, groups: seq<Group>)
      requires Valid() && selector !in cache && Right(table, selector, groups)
      modifies this
      ensures Valid()
      ensures |old(keys)| < cacheLength ==> keys == old(keys) + [selector] && cache == old(cache)[selector := groups]
      ensures |old(keys)| == cacheLength ==>
        keys == old(keys)[1..] + [selector] && cache == (old(cache) - {old(keys)[0]})[selector := groups]
    {
      RightAfterStore(table, cache, {}, selector, groups);
      assert cache - {} == cache;
      if |keys| + 1 > cacheLength {
        KeysShift(keys, cache);
        RightAfterStore(table, cache, {keys[0]}, selector, groups);
        KeysGrow(keys[1..], cache - {keys[0]}, selector, groups);
        assert (keys + [selector])[1..] == keys[1..] + [selector];
      } else {
        KeysGrow(keys, cache, selector, groups);
      }
      keys := keys + [selector];
      if |keys| > cacheLength {
        cache := cache - {keys[0]};
        keys := keys[1..];
      }
      cache := cache[selector := groups];
    }

    method Tokenize(selector: string, parseOnly: bool) returns (r: Outcome)
      requires Valid()
      modifies this
      ensures Valid()
      ensures r == Expected(table, selector, parseOnly)
      ensures r.Groups? ==> !parseOnly && Reads(table, selector, r.groups, "")
      ensures r.Error? ==> !parseOnly && exists groups, rest :: Reads(table, selector, groups, rest) && rest != ""
      ensures r.Excess? ==> parseOnly && exists groups, rest :: Reads(table, selector, groups, rest) && |rest| == r.length
      ensures parseOnly || r.Error? ==> cache == old(cache)
    {
      TokenizedReads(table, selector);
      if selector in cache {
        assert Right(table, selector, cache[selector]);
        return if parseOnly then Excess(0) else Groups(cache[selector]);
      }
      var groups, rest := ReadGroups(selector);
      if parseOnly {
        return Excess(|rest|);
      }
      if rest != [] {
        return Error;
      }
      Store(selector, groups);
      r := Groups(groups);
    }

    method ReadGroups(selector: string) returns (groups: seq<Group>, soFar: string)
      requires Sensible(table)
      ensures (groups, soFar) == Tokenized(table, selector)
    {
      soFar, groups := selector, [];
      var matched := false;
      while soFar != []
        invariant matched <==> groups != []
        invariant Lex(table, soFar, !matched, groups) == Tokenized(table, selector)
        decreases |soFar|
      {
        groups, soFar, matched := ReadPass(soFar, !matched, groups);
        if !matched {
          break;
        }
      }
    }

    method ReadPass(s: string, first: bool, groups: seq<Group>) returns (grown: seq<Group>, left: string, matched: bool)
      requires Sensible(table) && (first || groups != [])
      ensures (grown, left, matched) == Pass(table, s, first, groups)
    {
      var rest, tokens;
      grown, rest := OpenGroup(s, first, groups);
      tokens, left, matched := ReadRound(rest, grown[|grown| - 1]);
      grown := grown[|grown| - 1 := tokens];
    }

    method OpenGroup(s: string, first: bool, groups: seq<Group>) returns (r: seq<Group>, rest: string)
      requires Sensible(table) && (first || groups != [])
      ensures (r, rest) == StartGroup(table, s, first, groups)
    {
      var comma := if first then None else table.comma(s);
      r, rest := groups, s;
      if first || comma.Some? {
        if comma.Some? {
          rest := if s[comma.value..] != [] then s[comma.value..] else s;
        }
        r := r + [[]];
      }
    }

    method ReadRound(s: string, tokens: Group) returns (r: Group, rest: string, matched: bool)
      requires Sensible(table)
      ensures (r, rest) == Round(table, s, tokens)
      ensures matched <==> r != tokens
    {
      r, rest, matched := ReadOne(table.combinators, Combinator, s, tokens);
      var found;
      r, rest, found := ReadFilters(rest, r);
      matched := matched || found;
    }

    method ReadOne(m: Matcher, kind: Kind, s: string, tokens: Group) returns (r: Group, rest: string, matched: bool)
      requires Proper(m)
      ensures (r, rest) == TryOne(m, kind, s, tokens)
      ensures matched <==> r != tokens
    {
      r, rest := tokens, s;
      var length := m(s);
      matched := length.Some?;
      if matched {
        r := tokens + [Token(s[..length.value], kind)];
        rest := s[length.value..];
      }
    }

    method ReadFilters(s: string, tokens: Group) returns (r: Group, rest: string, found: bool)
      requires Sensible(table)
      ensures (r, rest) == ApplyFilters(table, 0, s, tokens)
      ensures found <==> r != tokens
    {
      r, rest, found := tokens, s, false;
      for i := 0 to |table.filters|
        invariant ApplyFilters(table, i, rest, r) == ApplyFilters(table, 0, s, tokens)
        invariant |r| >= |tokens| && (found <==> |r| > |tokens|) && (!found ==> r == tokens)
      {
        var matched;
        FilterStep(table, i, rest, r);
        r, rest, matched := ReadOne(table.filters[i], Filter(i), rest, r);
        found := found || matched;
      }
    }
  }

  lemma FilterStep(t: Table, i: nat, s: string, tokens: Group)
    requires i < |t.filters| && Sensible(t)
    ensures var (tried, rest) := TryOne(t.filters[i], Filter(i), s, tokens);
      ApplyFilters(t, i, s, tokens) == ApplyFilters(t, i + 1, rest, tried) && (|tried| > |tokens| || tried == tokens)
  {
  }

  // ---------- tokenizing partitions the text ----------

  /** The groups spelled out, each with the comma text read before it. */
  function Assemble(groups: seq<Group>, commas: seq<string>): string
    requires |groups| == |commas|
  {
    if groups == [] then ""
    else Assemble(groups[..|groups| - 1], commas[..|groups| - 1]) + commas[|groups| - 1] + Spelling(groups[|groups| - 1])
  }

  /** A comma text is empty, or what the comma matcher takes off the front of something. */
  ghost predicate CommaTexts(t: Table, commas: seq<string>) {
    forall k :: 0 <= k < |commas| ==>
      commas[k] == "" || exists s: string :: t.comma(s) == Some(|commas[k]|) && |commas[k]| <= |s| && commas[k] == s[..|commas[k]|]
  }

  lemma {:induction false} SpellingSnoc(tokens: Group, token: Token)
    ensures Spelling(tokens + [token]) == Spelling(tokens) + token.value
  {
    assert (tokens + [token])[..|tokens|] == tokens;
  }

  /** Tokens and unread rest, as text. */
  function Whole(tokens: Group, rest: string): string {
    Spelling(tokens) + rest
  }

  /** Moving text from the unread rest to the last token changes nothing overall. */
  lemma Consume(m: Matcher, kind: Kind, s: string, tokens: Group)
    requires Proper(m)
    ensures Conserved(TryOne(m, kind, s, tokens), s, tokens)
  {
    if m(s).Some? {
      var n := m(s).value;
      SpellingSnoc(tokens, Token(s[..n], kind));
      Regroup(Spelling(tokens), s, n);
    }
  }

  lemma Regroup(a: string, s: string, n: nat)
    requires n <= |s|
    ensures (a + s[..n]) + s[n..] == a + s
  {
  }

  lemma {:induction false} FiltersPartition(t: Table, i: nat, s: string, tokens: Group)
    requires i <= |t.filters| && Sensible(t)
    ensures Conserved(ApplyFilters(t, i, s, tokens), s, tokens)
    decreases |t.filters| - i
  {
    if i < |t.filters| {
      var tried := TryOne(t.filters[i], Filter(i), s, tokens);
      FilterStep(t, i, s, tokens);
      FiltersPartition(t, i + 1, tried.1, tried.0);
      Consume(t.filters[i], Filter(i), s, tokens);
      ConservedOn(ApplyFilters(t, i, s, tokens), tried, s, tokens);
    }
  }

  lemma ConservedOn(after: (Group, string), tried: (Group, string), s: string, tokens: Group)
    requires Conserved(tried, s, tokens) && Conserved(after, tried.1, tried.0)
    ensures Conserved(after, s, tokens)
  {
  }

  /** What a step has read and left is what it was given. */
  predicate Conserved(after: (Group, string), s: string, tokens: Group) {
    Whole(after.0, after.1) == Whole(tokens, s)
  }

  lemma RoundPartition(t: Table, s: string, tokens: Group)
    requires Sensible(t)
    ensures Conserved(Round(t, s, tokens), s, tokens)
  {
    var (combined, rest) := TryOne(t.combinators, Combinator, s, tokens);
    Consume(t.combinators, Combinator, s, tokens);
    FiltersPartition(t, 0, rest, combined);
  }

  /** From any point of the loop on, groups, commas and unread text still make up the text. */
  lemma {:induction false} LexPartition(t: Table, s: string, first: bool, groups: seq<Group>, commas: seq<string>)
    returns (all: seq<string>)
    requires Sensible(t) && (first || groups != []) && |commas| == |groups| && CommaTexts(t, commas)
    ensures var (r, rest) := Lex(t, s, first, groups);
      && |all| == |r| && CommaTexts(t, all)
      && Assemble(r, all) + rest == Assemble(groups, commas) + s
    decreases |s|
  {
    all := commas;
    if s != [] {
      var (started, rest) := StartGroup(t, s, first, groups);
      var last := |started| - 1;
      var comma := s[..|s| - |rest|];
      var marks := if |started| > |groups| then commas + [comma] else commas;
      StartPartition(t, s, first, groups, commas);
      RoundPartition(t, rest, started[last]);
      var (tokens, left) := Round(t, rest, started[last]);
      var grown := started[last := tokens];
      GrowLast(started, marks, tokens, rest, left);
      if tokens == started[last] {
        all := marks;
      } else {
        all := LexPartition(t, left, false, grown, marks);
      }
    }
  }

  lemma StartPartition(t: Table, s: string, first: bool, groups: seq<Group>, commas: seq<string>)
    requires Sensible(t) && (first || groups != []) && |commas| == |groups| && CommaTexts(t, commas)
    ensures var (started, rest) := StartGroup(t, s, first, groups);
      var marks := if |started| > |groups| then commas + [s[..|s| - |rest|]] else commas;
      |marks| == |started| && CommaTexts(t, marks) && Assemble(started, marks) + rest == Assemble(groups, commas) + s
  {
    var (started, rest) := StartGroup(t, s, first, groups);
    if |started| > |groups| {
      var comma := s[..|s| - |rest|];
      assert s == comma + rest;
      assert comma == "" || t.comma(s) == Some(|comma|);
      AssembleSnoc(groups, commas, comma);
      Regroup(Assemble(groups, commas), s, |comma|);
    }
  }

  lemma AssembleSnoc(groups: seq<Group>, commas: seq<string>, comma: string)
    requires |groups| == |commas|
    ensures Assemble(groups + [[]], commas + [comma]) == Assemble(groups, commas) + comma
  {
    assert (groups + [[]])[..|groups|] == groups && (commas + [comma])[..|groups|] == commas;
  }

  lemma GrowLast(started: seq<Group>, marks: seq<string>, tokens: Group, rest: string, left: string)
    requires started != [] && |marks| == |started|
    requires Whole(tokens, left) == Whole(started[|started| - 1], rest)
    ensures Assemble(started[|started| - 1 := tokens], marks) + left == Assemble(started, marks) + rest
  {
    var last := |started| - 1;
    var grown := started[last := tokens];
    assert grown[..last] == started[..last];
    var before := Assemble(started[..last], marks[..last]) + marks[last];
    Associate(before, Spelling(tokens), left);
    Associate(before, Spelling(started[last]), rest);
  }

  lemma Associate(a: string, b: string, c: string)
    ensures (a + b) + c == a + (b + c)
  {
  }

  /** Groups and the comma texts between them, put together in order, and an unread rest make up a text. */
  ghost predicate MakeUp(t: Table, groups: seq<Group>, commas: seq<string>, rest: string, text: string) {
    |commas| == |groups| && CommaTexts(t, commas) && Assemble(groups, commas) + rest == text
  }

  /**
    Tokenizing partitions the text: what has been read, with the commas between the groups,
    followed by what has not, is exactly the selector.
   */
  lemma TokenizePartitions(t: Table, selector: string)
    requires Sensible(t)
    ensures var (groups, rest) := Tokenized(t, selector);
      exists commas :: MakeUp(t, groups, commas, rest, selector)
  {
    var commas := LexPartition(t, selector, true, [], []);
    var (groups, rest) := Tokenized(t, selector);
    assert Assemble([], []) + selector == selector;
    assert MakeUp(t, groups, commas, rest, selector);
  }

  /** A tokenization that is returned spells the selector with nothing left over. */
  lemma GroupsSpellSelector(t: Table, selector: string, groups: seq<Group>)
    requires Sensible(t) && Expected(t, selector, false) == Groups(groups)
    ensures exists commas :: MakeUp(t, groups, commas, "", selector)
  {
    TokenizePartitions(t, selector);
  }
}
