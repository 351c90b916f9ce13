/**
  The cookie plugin in its default mode, over a cookie jar as in RFC 6265: `document.cookie`
  parses what is assigned to it (section 5.2) and prints the whole jar (section 5.4).
 */
module Cookie {
  import opened Wrappers
  import opened Percent

  const SEMICOLON: Unit := 0x3B
  const SPACE: Unit := 0x20
  const TAB: Unit := 0x09
  const EQUALS: Unit := 0x3D
  const QUOTE: Unit := 0x22
  const BACKSLASH: Unit := 0x5C
  const PLUS: Unit := 0x2B

  // ---------- split and join ----------

  /** Splits at the leftmost non-overlapping occurrences of a separator. */
  function Split(s: Text, sep: Text): (r: seq<Text>)
    requires sep != []
    ensures r != []
    decreases |s|
  {
    if s == [] then [[]]
    else if StartsWith(s, sep) then [[]] + Split(s[|sep|..], sep)
    else Prepend(s[0], Split(s[1..], sep))
  }

  predicate StartsWith(s: Text, prefix: Text) {
    |s| >= |prefix| && s[..|prefix|] == prefix
  }

  /** Puts a unit in front of the first piece. */
  function Prepend(c: Unit, parts: seq<Text>): (r: seq<Text>)
    requires parts != []
    ensures |r| == |parts| && r[0] == [c] + parts[0] && r[1..] == parts[1..]
  {
    [[c] + parts[0]] + parts[1..]
  }

  function Join(parts: seq<Text>, sep: Text): Text {
    if parts == [] then []
    else if |parts| == 1 then parts[0]
    else parts[0] + sep + Join(parts[1..], sep)
  }

  /** Joining what was split gives the text back. */
  lemma {:induction false} JoinSplit(s: Text, sep: Text)
    requires sep != []
    ensures Join(Split(s, sep), sep) == s
    decreases |s|
  {
    if s != [] {
      if StartsWith(s, sep) {
        JoinSplit(s[|sep|..], sep);
        JoinCons([], Split(s[|sep|..], sep), sep);
        assert s == [] + sep + s[|sep|..];
      } else {
        JoinSplit(s[1..], sep);
        JoinPrepend(s[0], Split(s[1..], sep), sep);
        assert s == [s[0]] + s[1..];
      }
    }
  }

  lemma JoinCons(p: Text, rest: seq<Text>, sep: Text)
    requires rest != []
    ensures Join([p] + rest, sep) == p + sep + Join(rest, sep)
  {
    assert ([p] + rest)[1..] == rest;
  }

  lemma JoinPrepend(c: Unit, r: seq<Text>, sep: Text)
    requires r != []
    ensures Join(Prepend(c, r), sep) == [c] + Join(r, sep)
  {
    if |r| > 1 {
      assert ([c] + r[0]) + sep + Join(r[1..], sep) == [c] + (r[0] + sep + Join(r[1..], sep));
    }
  }

  /** Text without the separator's first unit comes out as the first piece. */
  lemma {:induction false} SplitFirst(a: Text, sep: Text, rest: Text)
    requires sep != [] && sep[0] !in a
    ensures Split(a + sep + rest, sep) == [a] + Split(rest, sep)
    ensures Split(a, sep) == [a]
    decreases |a|
  {
    if a == [] {
      assert a + sep + rest == sep + rest && (sep + rest)[..|sep|] == sep && (sep + rest)[|sep|..] == rest;
    } else {
      var s := a + sep + rest;
      SplitFirst(a[1..], sep, rest);
      assert s[1..] == a[1..] + sep + rest;
      assert s[0] == a[0] && a == [a[0]] + a[1..];
      assert |s| >= |sep| ==> s[..|sep|][0] == a[0];
      assert |a| >= |sep| ==> a[..|sep|][0] == a[0];
      assert ([a[1..]] + Split(rest, sep))[1..] == Split(rest, sep);
      assert Prepend(a[0], [a[1..]]) == [a];
      assert Prepend(a[0], [a[1..]] + Split(rest, sep)) == [a] + Split(rest, sep);
    }
  }

  lemma {:induction false} SplitJoin(parts: seq<Text>, sep: Text)
    requires sep != [] && parts != [] && forall k :: 0 <= k < |parts| ==> sep[0] !in parts[k]
    ensures Split(Join(parts, sep), sep) == parts
  {
    if |parts| == 1 {
      SplitFirst(parts[0], sep, []);
    } else {
      SplitFirst(parts[0], sep, Join(parts[1..], sep));
      SplitJoin(parts[1..], sep);
    }
  }

  // ---------- the jar ----------

  datatype Crumb = Crumb(name: Text, value: Text)

  type Jar = seq<Crumb>

  /** Names are distinct; no part holds a semicolon and no name an equals sign. */
  ghost predicate JarOk(jar: Jar) {
    && (forall i :: 0 <= i < |jar| ==>
      && SEMICOLON !in jar[i].name && SEMICOLON !in jar[i].value && EQUALS !in jar[i].name)
    && Distinct(jar)
  }

  ghost predicate Distinct(jar: Jar) {
    forall i, j :: 0 <= i < j < |jar| ==> jar[i].name != jar[j].name
  }

  function Show(c: Crumb): Text {
    c.name + [EQUALS] + c.value
  }

  function ShowAll(jar: Jar): (r: seq<Text>)
    ensures |r| == |jar| && forall k :: 0 <= k < |jar| ==> r[k] == Show(jar[k])
  {
    seq(|jar|, k requires 0 <= k < |jar| => Show(jar[k]))
  }

  /** Reading document.cookie: the pairs, oldest first, with "; " between them. */
  function DocumentCookie(jar: Jar): Text {
    Join(ShowAll(jar), [SEMICOLON, SPACE])
  }

  /** The part of a text before the first occurrence of a unit. */
  function Upto(s: Text, c: Unit): (r: Text)
    ensures |r| <= |s|
  {
    if s == [] || s[0] == c then [] else [s[0]] + Upto(s[1..], c)
  }

  function TrimLeft(s: Text): Text {
    if s != [] && (s[0] == SPACE || s[0] == TAB) then TrimLeft(s[1..]) else s
  }

  function TrimRight(s: Text): Text {
    if s != [] && (s[|s| - 1] == SPACE || s[|s| - 1] == TAB) then TrimRight(s[..|s| - 1]) else s
  }

  function Trim(s: Text): Text {
    TrimRight(TrimLeft(s))
  }

  function IndexOf(jar: Jar, name: Text): (i: nat)
    ensures i <= |jar| && (i < |jar| ==> jar[i].name == name)
    ensures forall k :: 0 <= k < i ==> jar[k].name != name
  {
    if jar == [] || jar[0].name == name then 0 else 1 + IndexOf(jar[1..], name)
  }

  /** A cookie keeps its place when its value changes; an expired one is dropped. */
  function Put(jar: Jar, c: Crumb, expired: bool): Jar {
    var i := IndexOf(jar, c.name);
    if expired then (if i < |jar| then jar[..i] + jar[i + 1..] else jar)
    else if i < |jar| then jar[i := c] else jar + [c]
  }

  /**
    Assigning to document.cookie: name and value are taken from the text before the first
    semicolon, and trimmed; without a name nothing happens.  `expired` is what the
    attributes after it say about the expiry date.
   */
  function Store(jar: Jar, text: Text, expired: bool): Jar {
    var pair := Upto(text, SEMICOLON);
    var raw := Upto(pair, EQUALS);
    if |raw| == |pair| || Trim(raw) == [] then jar
    else Put(jar, Crumb(Trim(raw), Trim(pair[|raw| + 1..])), expired)
  }

  // ---------- the plugin ----------

  /** The encoding of a text that can be encoded. */
  function Encoded(s: Text): Text {
    match Encode(s) case None => [] case Some(t) => t
  }

  datatype Outcome = Value(text: Text) | Undefined | Throws

  function Replace(s: Text, c: Unit, with: Unit): (r: Text)
    ensures |r| == |s|
  {
    seq(|s|, k requires 0 <= k < |s| => if s[k] == c then with else s[k])
  }

  /** Replaces every non-overlapping \x by x, from the left. */
  function Unescape(s: Text, x: Unit): Text
    decreases |s|
  {
    if |s| < 2 then s
    else if s[0] == BACKSLASH && s[1] == x then [x] + Unescape(s[2..], x)
    else [s[0]] + Unescape(s[1..], x)
  }

  /** slice(1, -1) */
  function Middle(s: Text): Text {
    if |s| <= 2 then [] else s[1..|s| - 1]
  }

  function ParseCookieValue(s: Text): Outcome {
    var plain := if s != [] && s[0] == QUOTE then Unescape(Unescape(Middle(s), QUOTE), BACKSLASH) else s;
    match Decode(Replace(plain, PLUS, SPACE)) case None => Undefined case Some(t) => Value(t)
  }

  /** What reading a key amounts to: the first cookie whose name decodes to it. */
  function Lookup(jar: Jar, key: Text): Outcome {
    if jar == [] then Undefined
    else match Decode(jar[0].name)
      case None => Throws
      case Some(name) => if name == key then ParseCookieValue(jar[0].value) else Lookup(jar[1..], key)
  }

  class Plugin {
    var jar: Jar

    constructor ()
      ensures jar == []
    {
      jar := [];
    }

    /** $.cookie(key, value, options); `attributes` is the printed options, empty or starting with a semicolon. */
    method Write(key: Text, value: Text, attributes: Text, expired: bool) returns (ok: bool)
      requires attributes == [] || attributes[0] == SEMICOLON
      modifies this
      ensures ok <==> WellFormed(key) && WellFormed(value)
      ensures !ok ==> jar == old(jar)
      ensures ok && key != [] ==> jar == Put(old(jar), Crumb(Encoded(key), Encoded(value)), expired)
      ensures ok && key == [] ==> jar == old(jar)
      ensures JarOk(old(jar)) ==> JarOk(jar)
    {
      var name, text := Encode(key), Encode(value);
      EncodeDefined(key);
      EncodeDefined(value);
      if name.None? || text.None? {
        return false;
      }
      EncodePlain(key);
      EncodePlain(value);
      StorePlain(jar, name.value, text.value, attributes, expired);
      if JarOk(jar) {
        PutKeepsJar(jar, Crumb(name.value, text.value), expired);
      }
      jar := Store(jar, name.value + [EQUALS] + text.value + attributes, expired);
      ok := true;
    }

    /** $.cookie(key) */
    method Read(key: Text) returns (result: Outcome)
      requires JarOk(jar) && key != []
      ensures result == Lookup(jar, key)
    {
      var doc := DocumentCookie(jar);
      var cookies := if doc != [] then Split(doc, [SEMICOLON, SPACE]) else [];
      CookiesAreJar(jar);
      var i := 0;
      while i < |cookies|
        invariant 0 <= i <= |cookies|
        invariant Lookup(jar, key) == Lookup(jar[i..], key)
      {
        var parts := Split(cookies[i], [EQUALS]);
        SplitFirst(jar[i].name, [EQUALS], jar[i].value);
        JoinSplit(jar[i].value, [EQUALS]);
        assert parts == [jar[i].name] + Split(jar[i].value, [EQUALS]);
        var name := Decode(parts[0]);
        if name.None? {
          return Throws;
        }
        var cookie := Join(parts[1..], [EQUALS]);
        assert cookie == jar[i].value && jar[i..][0] == jar[i] && jar[i..][1..] == jar[i + 1..];
        if name.value == key {
          return ParseCookieValue(cookie);
        }
        i := i + 1;
      }
      result := Undefined;
    }

    /** $.removeCookie(key); None when reading throws. */
    method Remove(key: Text, attributes: Text) returns (removed: Option<bool>)
      requires JarOk(jar) && key != []
      requires attributes == [] || attributes[0] == SEMICOLON
      modifies this
      ensures JarOk(jar)
      ensures Lookup(old(jar), key) == Throws ==> removed == None && jar == old(jar)
      ensures Lookup(old(jar), key) == Undefined ==> removed == Some(false) && jar == old(jar)
      ensures Lookup(old(jar), key).Value? && WellFormed(key) ==>
        && jar == Put(old(jar), Crumb(Encoded(key), []), true)
        && removed == (if Lookup(jar, key) == Throws then None else Some(Lookup(jar, key) == Undefined || Lookup(jar, key) == Value([])))
    {
      var before := Read(key);
      if before == Throws {
        return None;
      }
      if before == Undefined {
        return Some(false);
      }
      EncodeDefined(key);
      assert Encode([]) == Some([]);
      var ok := Write(key, [], attributes, true);
      if !ok {
        return None;
      }
      EncodePlain(key);
      PutKeepsJar(old(jar), Crumb(Encoded(key), []), true);
      var after := Read(key);
      return if after == Throws then None else Some(after == Undefined || after == Value([]));
    }
  }

  // ---------- the assigned text is parsed back into the pair that was written ----------

  lemma {:induction false} UptoAbsent(s: Text, c: Unit)
    requires c !in s
    ensures Upto(s, c) == s
  {
    if s != [] {
      UptoAbsent(s[1..], c);
    }
  }

  lemma {:induction false} UptoFound(s: Text, c: Unit, rest: Text)
    requires c !in s
    ensures Upto(s + [c] + rest, c) == s
  {
    if s != [] {
      UptoFound(s[1..], c, rest);
      assert (s + [c] + rest)[1..] == s[1..] + [c] + rest;
    }
  }

  lemma PlainHasNoSpecials(s: Text)
    requires IsPlain(s)
    ensures SEMICOLON !in s && EQUALS !in s && SPACE !in s && TAB !in s && QUOTE !in s && PLUS !in s
  {
  }

  lemma StorePlain(jar: Jar, name: Text, value: Text, attributes: Text, expired: bool)
    requires IsPlain(name) && IsPlain(value)
    requires attributes == [] || attributes[0] == SEMICOLON
    ensures name != [] ==> Store(jar, name + [EQUALS] + value + attributes, expired) == Put(jar, Crumb(name, value), expired)
    ensures name == [] ==> Store(jar, name + [EQUALS] + value + attributes, expired) == jar
  {
    PlainHasNoSpecials(name);
    PlainHasNoSpecials(value);
    var pair := name + [EQUALS] + value;
    if attributes == [] {
      assert pair + attributes == pair;
      UptoAbsent(pair, SEMICOLON);
    } else {
      assert pair + attributes == pair + [SEMICOLON] + attributes[1..];
      UptoFound(pair, SEMICOLON, attributes[1..]);
    }
    UptoFound(name, EQUALS, value);
    assert pair[|name| + 1..] == value;
    assert Trim(name) == name && Trim(value) == value;
  }

  lemma PutKeepsJar(jar: Jar, c: Crumb, expired: bool)
    requires JarOk(jar) && IsPlain(c.name) && IsPlain(c.value)
    ensures JarOk(Put(jar, c, expired))
  {
    PlainHasNoSpecials(c.name);
    PlainHasNoSpecials(c.value);
  }

  lemma CookiesAreJar(jar: Jar)
    requires JarOk(jar)
    ensures jar == [] ==> DocumentCookie(jar) == []
    ensures jar != [] ==> DocumentCookie(jar) != [] && Split(DocumentCookie(jar), [SEMICOLON, SPACE]) == ShowAll(jar)
  {
    if jar != [] {
      SplitJoin(ShowAll(jar), [SEMICOLON, SPACE]);
      assert |ShowAll(jar)[0]| > 0;
    }
  }

  // ---------- round trips through the jar ----------

  /**
    The first cookie set by others that stops the search for a key: its name is not the
    plugin's spelling of the key, and decodes to the key all the same, or not at all.
   */
  function Claim(jar: Jar, key: Text): (i: nat)
    ensures i <= |jar|
  {
    if jar == [] then 0
    else if Some(jar[0].name) != Encode(key) && (Decode(jar[0].name).None? || Decode(jar[0].name) == Some(key)) then 0
    else 1 + Claim(jar[1..], key)
  }

  /** What the search answers at such a cookie. */
  function Claimed(c: Crumb): Outcome {
    if Decode(c.name).None? then Throws else ParseCookieValue(c.value)
  }

  /** A backslash in front of every x. */
  function Slashed(s: Text, x: Unit): Text {
    if s == [] then [] else (if s[0] == x then [BACKSLASH, x] else [s[0]]) + Slashed(s[1..], x)
  }

  lemma {:induction false} UnescapeSlashed(s: Text, x: Unit)
    requires x == QUOTE || x == BACKSLASH
    ensures Unescape(Slashed(s, x), x) == s
    decreases |s|
  {
    if s != [] {
      UnescapeSlashed(s[1..], x);
      var rest := Slashed(s[1..], x);
      if s[0] == x {
        assert ([BACKSLASH, x] + rest)[2..] == rest;
      } else if rest != [] {
        assert ([s[0]] + rest)[1..] == rest;
        assert x == QUOTE ==> rest[0] != x;
      }
      assert s == [s[0]] + s[1..];
    }
  }

  /** A value in quotes, as RFC 2068 writes it: quotes and backslashes inside are escaped. */
  function Quoted(s: Text): Text {
    [QUOTE] + Slashed(Slashed(s, BACKSLASH), QUOTE) + [QUOTE]
  }

  /** Quoting makes no difference to a value, whatever is in it. */
  lemma QuotedSame(s: Text)
    ensures ParseCookieValue(Quoted(s)) == match Decode(Replace(s, PLUS, SPACE)) case None => Undefined case Some(t) => Value(t)
  {
    var inner := Slashed(Slashed(s, BACKSLASH), QUOTE);
    assert Middle(Quoted(s)) == inner;
    UnescapeSlashed(Slashed(s, BACKSLASH), QUOTE);
    UnescapeSlashed(s, BACKSLASH);
  }

  /** A text whose spaces were written as pluses reads as the text, in quotes or without. */
  lemma PlusIsSpace(s: Text)
    requires PERCENT !in s && PLUS !in s
    ensures var written := Replace(s, SPACE, PLUS);
      && ParseCookieValue(Quoted(written)) == Value(s)
      && (s == [] || s[0] != QUOTE ==> ParseCookieValue(written) == Value(s))
  {
    var written := Replace(s, SPACE, PLUS);
    assert Replace(written, PLUS, SPACE) == s;
    DecodePlain(s);
    QuotedSame(written);
  }

  lemma ParseEncoded(value: Text)
    requires WellFormed(value)
    ensures Encode(value).Some? && ParseCookieValue(Encoded(value)) == Value(value)
  {
    EncodeDefined(value);
    EncodePlain(value);
    EncodeRoundTrip(value);
    var s := Encoded(value);
    PlainHasNoSpecials(s);
    assert Replace(s, PLUS, SPACE) == s;
  }

  /** Reading back a written key: the value, unless a foreign cookie in front of it claims the key. */
  lemma {:induction false} ReadBack(jar: Jar, key: Text, value: Text)
    requires WellFormed(key) && WellFormed(value)
    ensures Encode(key).Some? && Encode(value).Some?
    ensures Lookup(Put(jar, Crumb(Encoded(key), Encoded(value)), false), key) ==
      if IndexOf(jar, Encoded(key)) <= Claim(jar, key) then Value(value) else Claimed(jar[Claim(jar, key)])
  {
    EncodeDefined(key);
    EncodeRoundTrip(key);
    ParseEncoded(value);
    var c := Crumb(Encoded(key), Encoded(value));
    PutFront(jar, c, false);
    if jar == [] {
      assert [c][1..] == [];
    } else if jar[0].name != c.name {
      ReadBack(jar[1..], key, value);
    }
  }

  predicate ReadsBack(jar: Jar, key: Text, value: Text) {
    Lookup(Put(jar, Crumb(Encoded(key), Encoded(value)), false), key) == Value(value)
  }

  /**
    Every value written under a key is read back exactly when no foreign cookie in front
    of the key's own place claims the key.
   */
  lemma ReadAfterWrite(jar: Jar, key: Text)
    requires WellFormed(key)
    ensures (forall value :: WellFormed(value) ==> ReadsBack(jar, key, value)) <==> IndexOf(jar, Encoded(key)) <= Claim(jar, key)
  {
    if IndexOf(jar, Encoded(key)) <= Claim(jar, key) {
      forall value | WellFormed(value)
        ensures ReadsBack(jar, key, value)
      {
        ReadBack(jar, key, value);
      }
    } else {
      var x, y := TwoTexts();
      ReadBack(jar, key, x);
      ReadBack(jar, key, y);
      assert !ReadsBack(jar, key, x) || !ReadsBack(jar, key, y);
    }
  }

  lemma TwoTexts() returns (x: Text, y: Text)
    ensures WellFormed(x) && WellFormed(y) && x != y
  {
    x, y := [], [0x78];
    assert y[1..] == [];
  }

  lemma {:induction false} ForeignOnly(jar: Jar, key: Text)
    requires WellFormed(key)
    requires forall k :: 0 <= k < |jar| ==> jar[k].name != Encoded(key)
    ensures Lookup(jar, key) == if Claim(jar, key) == |jar| then Undefined else Claimed(jar[Claim(jar, key)])
  {
    EncodeDefined(key);
    if jar != [] {
      ForeignOnly(jar[1..], key);
    }
  }

  /** After removal the key is absent, unless a foreign cookie claims it: then that one is read. */
  lemma {:induction false} ReadAfterRemove(jar: Jar, key: Text)
    requires Distinct(jar) && WellFormed(key)
    ensures Lookup(Put(jar, Crumb(Encoded(key), []), true), key) ==
      if Claim(jar, key) == |jar| then Undefined else Claimed(jar[Claim(jar, key)])
  {
    EncodeDefined(key);
    var c := Crumb(Encoded(key), []);
    PutFront(jar, c, true);
    if jar != [] {
      if jar[0].name == c.name {
        OwnRemoved(jar, key);
      } else {
        ReadAfterRemove(jar[1..], key);
        assert Put(jar, c, true) == [jar[0]] + Put(jar[1..], c, true);
        LookupFront(jar[0], Put(jar[1..], c, true), key);
      }
    }
  }

  lemma OwnRemoved(jar: Jar, key: Text)
    requires jar != [] && Distinct(jar) && WellFormed(key) && jar[0].name == Encoded(key)
    ensures Lookup(jar[1..], key) == if Claim(jar, key) == |jar| then Undefined else Claimed(jar[Claim(jar, key)])
  {
    EncodeDefined(key);
    var rest := jar[1..];
    assert forall k :: 0 <= k < |rest| ==> rest[k] == jar[k + 1];
    ForeignOnly(rest, key);
    assert Claim(jar, key) == 1 + Claim(rest, key);
  }

  lemma LookupFront(c: Crumb, rest: Jar, key: Text)
    ensures Lookup([c] + rest, key) ==
      if Decode(c.name).None? || Decode(c.name) == Some(key) then Claimed(c) else Lookup(rest, key)
  {
    assert ([c] + rest)[1..] == rest;
  }

  /** Every cookie was written by the plugin. */
  ghost predicate Ours(jar: Jar) {
    forall i :: 0 <= i < |jar| ==> SpellsKey(jar[i].name)
  }

  ghost predicate SpellsKey(name: Text) {
    exists k :: Encode(k) == Some(name)
  }

  /** In a jar of the plugin's own cookies nothing claims a key, so every round trip succeeds. */
  lemma {:induction false} OursUnclaimed(jar: Jar, key: Text)
    requires Ours(jar)
    ensures Claim(jar, key) == |jar|
  {
    if jar != [] {
      assert SpellsKey(jar[0].name);
      var k :| Encode(k) == Some(jar[0].name);
      EncodeRoundTrip(k);
      OursUnclaimed(jar[1..], key);
    }
  }

  lemma StaysOurs(jar: Jar, key: Text, value: Text, expired: bool)
    requires Ours(jar) && WellFormed(key)
    ensures Ours(Put(jar, Crumb(Encoded(key), value), expired))
  {
    EncodeDefined(key);
    assert SpellsKey(Encoded(key)) by {
      assert Encode(key) == Some(Encoded(key));
    }
  }

  /** Writing or removing one key leaves the reading of every other key as it was, in any jar. */
  lemma {:induction false} OthersUnaffected(jar: Jar, key: Text, value: Text, expired: bool, other: Text)
    requires Encode(key).Some? && other != key
    ensures Lookup(Put(jar, Crumb(Encoded(key), value), expired), other) == Lookup(jar, other)
  {
    EncodeRoundTrip(key);
    var c := Crumb(Encoded(key), value);
    PutFront(jar, c, expired);
    if jar == [] {
      assert [c][1..] == [];
    } else if jar[0].name != c.name {
      OthersUnaffected(jar[1..], key, value, expired, other);
    }
  }

  lemma PutFront(jar: Jar, c: Crumb, expired: bool)
    ensures Put(jar, c, expired) ==
      if jar == [] then (if expired then [] else [c])
      else if jar[0].name == c.name then (if expired then jar[1..] else [c] + jar[1..])
      else [jar[0]] + Put(jar[1..], c, expired)
  {
    if jar != [] {
      var i := IndexOf(jar, c.name);
      if jar[0].name != c.name {
        assert i == 1 + IndexOf(jar[1..], c.name);
        assert jar == [jar[0]] + jar[1..];
      } else {
        assert i == 0;
      }
    }
  }

  /** A foreign cookie whose name spells the same key differently hides what is written later. */
  lemma ShadowedWrite()
    ensures var key: Text := [0x61];
      var jar := [Crumb([PERCENT, 0x36, 0x31], [0x78])];
      && JarOk(jar) && Claim(jar, key) < IndexOf(jar, key)
      && Encode(key) == Some(key)
      && Lookup(Put(jar, Crumb(key, [0x79]), false), key) == Value([0x78])
  {
    var key: Text := [0x61];
    var alias: Text := [PERCENT, 0x36, 0x31];
    assert key[1..] == [] && alias[3..] == [];
    assert Encode([]) == Some([]) && key + [] == key;
    assert Encode(key) == Some(key);
    assert TakeContinuations([], 0) == Some([]);
    assert Decode(alias) == Some(key);
    var x: Text := [0x78];
    assert x[1..] == [] && x + [] == x;
    assert Decode([]) == Some([]);
    assert Decode(x) == Some(x);
    assert Replace(x, PLUS, SPACE) == x;
    var jar := [Crumb(alias, x)];
    assert jar[0].name != key && IndexOf(jar, key) == 1;
    assert Put(jar, Crumb(key, [0x79]), false)[0] == jar[0];
    assert ParseCookieValue(x) == Value(x);
  }
}
