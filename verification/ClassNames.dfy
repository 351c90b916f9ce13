/** addClass, removeClass and hasClass: string editing that should act on a list of words. */
module ClassNames {
  import opened Wrappers
  import opened Seqs

  // ---------- white space ----------

  /** What the class attribute is normalised on: tab, carriage return, newline, form feed. */
  predicate IsBreak(c: char) {
    c as int in [0x09, 0x0D, 0x0A, 0x0C]
  }

  /** Everything the regular expressions call white space, as in section 15.10.2.12 of ECMA-262 5.1. */
  predicate IsSpace(c: char) {
    var n := c as int;
    n == 0x20 || 0x09 <= n <= 0x0D || n in [0xA0, 0x1680, 0x2028, 0x2029, 0x202F, 0x205F, 0x3000, 0xFEFF] || 0x2000 <= n <= 0x200A
  }

  function Normalize(s: string): (r: string)
    ensures |r| == |s| && forall k :: 0 <= k < |s| ==> r[k] == (if IsBreak(s[k]) then ' ' else s[k])
  {
    seq(|s|, k requires 0 <= k < |s| => if IsBreak(s[k]) then ' ' else s[k])
  }

  /** The runs of non-white-space characters: match(/\S+/g). */
  function Tokens(s: string): (r: seq<string>)
    ensures forall k :: 0 <= k < |r| ==> IsToken(r[k])
    decreases |s|
  {
    if s == [] then []
    else if IsSpace(s[0]) then Tokens(s[1..])
    else
      var n := RunLength(s);
      [s[..n]] + Tokens(s[n..])
  }

  predicate IsToken(w: string) {
    w != [] && forall k :: 0 <= k < |w| ==> !IsSpace(w[k])
  }

  function RunLength(s: string): (n: nat)
    ensures n <= |s| && forall k :: 0 <= k < n ==> !IsSpace(s[k])
    ensures n < |s| ==> IsSpace(s[n])
    ensures s != [] && !IsSpace(s[0]) ==> n > 0
  {
    if s == [] || IsSpace(s[0]) then 0 else 1 + RunLength(s[1..])
  }

  /** White space before each token and after the last, with the tokens between. */
  function SetOff(gaps: seq<string>, tokens: seq<string>): string
    requires |gaps| == |tokens| + 1
  {
    if tokens == [] then gaps[0] else gaps[0] + tokens[0] + SetOff(gaps[1..], tokens[1..])
  }

  predicate Blank(s: string) {
    forall k :: 0 <= k < |s| ==> IsSpace(s[k])
  }

  /** The text is its tokens with white space around them, and some between any two: so none is left out, and none is cut. */
  lemma {:induction false} TokensMakeUp(s: string) returns (gaps: seq<string>)
    ensures |gaps| == |Tokens(s)| + 1 && SetOff(gaps, Tokens(s)) == s
    ensures forall k :: 0 <= k < |gaps| ==> Blank(gaps[k]) && (0 < k < |gaps| - 1 ==> gaps[k] != "")
    ensures s != [] && IsSpace(s[0]) ==> gaps[0] != ""
    decreases |s|
  {
    if s == [] {
      gaps := [""];
    } else if IsSpace(s[0]) {
      gaps := TokensMakeUp(s[1..]);
      var first := [s[0]] + gaps[0];
      SetOffFirst(gaps, Tokens(s), [s[0]]);
      gaps := gaps[0 := first];
      assert s == [s[0]] + s[1..];
    } else {
      var n := RunLength(s);
      var rest := TokensMakeUp(s[n..]);
      gaps := [""] + rest;
      assert Tokens(s)[1..] == Tokens(s[n..]) && gaps[1..] == rest;
      assert s == s[..n] + s[n..] && "" + s[..n] == s[..n];
    }
  }

  lemma SetOffFirst(gaps: seq<string>, tokens: seq<string>, more: string)
    requires |gaps| == |tokens| + 1
    ensures SetOff(gaps[0 := more + gaps[0]], tokens) == more + SetOff(gaps, tokens)
  {
    var longer := gaps[0 := more + gaps[0]];
    if tokens != [] {
      assert longer[1..] == gaps[1..];
      assert (more + gaps[0]) + tokens[0] + SetOff(gaps[1..], tokens[1..]) == more + (gaps[0] + tokens[0] + SetOff(gaps[1..], tokens[1..]));
    }
  }

  // ---------- words ----------

  /** Split at every space. */
  function Pieces(s: string): (r: seq<string>)
    ensures r != []
  {
    if s == [] then [[]]
    else if s[|s| - 1] == ' ' then Pieces(s[..|s| - 1]) + [[]]
    else
      var r := Pieces(s[..|s| - 1]);
      r[|r| - 1 := r[|r| - 1] + [s[|s| - 1]]]
  }

  function NonEmpty(parts: seq<string>): seq<string> {
    Keep(parts, p => p != [])
  }

  /** The words of a text in which only spaces separate. */
  function Words(s: string): seq<string> {
    NonEmpty(Pieces(s))
  }

  /** The words of a class attribute. */
  function ClassWords(className: string): seq<string> {
    Words(Normalize(className))
  }

  lemma {:induction false} PiecesConcat(a: string, b: string)
    ensures Pieces(a + [' '] + b) == Pieces(a) + Pieces(b)
    decreases |b|
  {
    var s := a + [' '] + b;
    if b == [] {
      assert s[..|s| - 1] == a;
    } else {
      assert s[..|s| - 1] == a + [' '] + b[..|b| - 1];
      assert s[|s| - 1] == b[|b| - 1];
      PiecesConcat(a, b[..|b| - 1]);
    }
  }

  lemma {:induction false} PieceOfWord(w: string)
    requires ' ' !in w
    ensures Pieces(w) == [w]
  {
    if w != [] {
      PieceOfWord(w[..|w| - 1]);
      assert w == w[..|w| - 1] + [w[|w| - 1]];
    }
  }

  /** A spaced word inside a text is one of its pieces. */
  lemma PiecesAround(a: string, w: string, b: string)
    requires ' ' !in w
    ensures Pieces(a + ([' '] + w + [' ']) + b) == Pieces(a) + [w] + Pieces(b)
  {
    assert a + ([' '] + w + [' ']) + b == a + [' '] + (w + [' '] + b);
    PiecesConcat(a, w + [' '] + b);
    PiecesConcat(w, b);
    PieceOfWord(w);
  }

  lemma WordsConcat(a: string, b: string)
    ensures Words(a + [' '] + b) == Words(a) + Words(b)
  {
    PiecesConcat(a, b);
    KeepConcat(Pieces(a), Pieces(b), p => p != []);
  }

  lemma WordsOfNothing()
    ensures Words([]) == [] && Pieces([]) == [[]]
  {
    assert Pieces([])[..0] == [];
  }

  // ---------- searching ----------

  predicate OccursAt(s: string, pattern: string, i: nat) {
    i + |pattern| <= |s| && s[i..i + |pattern|] == pattern
  }

  /** indexOf */
  method IndexOf(s: string, pattern: string) returns (index: int)
    ensures index == -1 ==> forall i: nat :: !OccursAt(s, pattern, i)
    ensures index != -1 ==> 0 <= index && OccursAt(s, pattern, index) && forall i: nat :: i < index ==> !OccursAt(s, pattern, i)
  {
    index := 0;
    while index + |pattern| <= |s|
      invariant 0 <= index && forall i: nat :: i < index ==> !OccursAt(s, pattern, i)
    {
      if s[index..index + |pattern|] == pattern {
        return;
      }
      index := index + 1;
    }
    index := -1;
  }

  function Spaced(w: string): string {
    [' '] + w + [' ']
  }

  /** Text that starts and ends with a space. */
  predicate Fenced(s: string) {
    s != [] && s[0] == ' ' && s[|s| - 1] == ' '
  }

  function Rejoin(parts: seq<string>): string
    requires parts != []
  {
    if |parts| == 1 then parts[0] else Rejoin(parts[..|parts| - 1]) + [' '] + parts[|parts| - 1]
  }

  lemma {:induction false} RejoinPieces(s: string)
    ensures Rejoin(Pieces(s)) == s
  {
    if s != [] {
      var front, c := s[..|s| - 1], s[|s| - 1];
      RejoinPieces(front);
      assert s == front + [c];
      var r := Pieces(front);
      if c == ' ' {
        assert (r + [[]])[..|r|] == r;
      } else {
        var grown := r[|r| - 1 := r[|r| - 1] + [c]];
        assert Pieces(s) == grown && grown[..|r| - 1] == r[..|r| - 1];
        if |r| > 1 {
          assert Rejoin(grown) == Rejoin(r[..|r| - 1]) + [' '] + (r[|r| - 1] + [c]);
        }
      }
    }
  }

  lemma {:induction false} RejoinConcat(p: seq<string>, q: seq<string>)
    requires p != [] && q != []
    ensures Rejoin(p + q) == Rejoin(p) + [' '] + Rejoin(q)
  {
    if |q| == 1 {
      assert (p + q)[..|p|] == p;
    } else {
      RejoinConcat(p, q[..|q| - 1]);
      assert (p + q)[..|p + q| - 1] == p + q[..|q| - 1];
    }
  }

  /** In fenced text, a word is there exactly when its spaced form occurs. */
  lemma SpacedOccurs(s: string, w: string)
    requires Fenced(s) && w != [] && ' ' !in w
    ensures w in Words(s) <==> exists i: nat :: OccursAt(s, Spaced(w), i)
  {
    KeepMember(Pieces(s), p => p != [], w);
    if i: nat :| OccursAt(s, Spaced(w), i) {
      var b := s[i + |w| + 2..];
      assert s == s[..i] + Spaced(w) + b;
      PiecesAround(s[..i], w, b);
      assert (Pieces(s[..i]) + [w] + Pieces(b))[|Pieces(s[..i])|] == w;
    }
    if w in Words(s) {
      var k :| 0 <= k < |Pieces(s)| && Pieces(s)[k] == w;
      OccursByPiece(s, k);
    }
  }

  lemma FencedEnds(s: string)
    requires Fenced(s)
    ensures Pieces(s)[0] == [] && Pieces(s)[|Pieces(s)| - 1] == []
  {
    assert s == [] + [' '] + s[1..];
    PiecesConcat([], s[1..]);
    WordsOfNothing();
    assert Pieces(s)[0] == [];
  }

  lemma RejoinAround(before: seq<string>, block: seq<string>, after: seq<string>)
    requires before != [] && block != [] && after != []
    ensures Rejoin(before + (block + after)) == Rejoin(before) + Spaced(Rejoin(block)) + Rejoin(after)
  {
    RejoinConcat(before, block + after);
    RejoinConcat(block, after);
    Bracket(Rejoin(before), Rejoin(block), Rejoin(after));
  }

  lemma Bracket(a: string, w: string, b: string)
    ensures a + [' '] + (w + [' '] + b) == a + Spaced(w) + b
  {
  }

  lemma OccursByPiece(s: string, k: nat)
    requires Fenced(s) && k < |Pieces(s)| && Pieces(s)[k] != []
    ensures exists i: nat :: OccursAt(s, Spaced(Pieces(s)[k]), i)
  {
    var ps := Pieces(s);
    FencedEnds(s);
    RejoinPieces(s);
    var before, after := ps[..k], ps[k + 1..];
    assert ps == before + ([ps[k]] + after);
    RejoinAround(before, [ps[k]], after);
    OccursInside(Rejoin(before), Spaced(ps[k]), Rejoin(after));
  }

  lemma OccursInside(a: string, w: string, b: string)
    ensures exists i: nat :: OccursAt(a + w + b, w, i)
  {
    assert OccursAt(a + w + b, w, |a|);
  }

  // ---------- trimming ----------

  function TrimLeft(s: string): string {
    if s != [] && IsSpace(s[0]) then TrimLeft(s[1..]) else s
  }

  function TrimRight(s: string): string {
    if s != [] && IsSpace(s[|s| - 1]) then TrimRight(s[..|s| - 1]) else s
  }

  /** jQuery.trim */
  function Trim(s: string): string {
    TrimRight(TrimLeft(s))
  }

  predicate StartsOdd(w: string) {
    w != [] && IsSpace(w[0])
  }

  predicate EndsOdd(w: string) {
    w != [] && IsSpace(w[|w| - 1])
  }

  /**
    Trimming is harmless to the words: the first does not start, and the last does not
    end, with white space other than a space (a no-break space, say).
   */
  predicate Trimmable(words: seq<string>) {
    words != [] ==> !StartsOdd(words[0]) && !EndsOdd(words[|words| - 1])
  }

  /** The characters of all words. */
  function Letters(s: string): nat {
    if s == [] then 0 else Letters(s[..|s| - 1]) + (if s[|s| - 1] == ' ' then 0 else 1)
  }

  function Total(parts: seq<string>): nat {
    if parts == [] then 0 else Total(parts[..|parts| - 1]) + |parts[|parts| - 1]|
  }

  lemma {:induction false} TotalOfPieces(s: string)
    ensures Total(Pieces(s)) == Letters(s)
  {
    if s == [] {
      var one: seq<string> := [[]];
      assert one[..0] == [] && Pieces(s) == one;
    } else {
      var r := Pieces(s[..|s| - 1]);
      TotalOfPieces(s[..|s| - 1]);
      if s[|s| - 1] == ' ' {
        assert (r + [[]])[..|r|] == r;
      } else {
        assert Pieces(s)[..|r| - 1] == r[..|r| - 1];
      }
    }
  }

  lemma NothingCounts(front: seq<string>)
    ensures NonEmpty(front + [[]]) == NonEmpty(front) && Total(front + [[]]) == Total(front)
  {
    assert (front + [[]])[..|front|] == front;
  }

  lemma {:induction false} TotalOfNonEmpty(parts: seq<string>)
    ensures Total(NonEmpty(parts)) == Total(parts)
  {
    if parts != [] {
      var front, last := parts[..|parts| - 1], parts[|parts| - 1];
      TotalOfNonEmpty(front);
      if last != [] {
        assert NonEmpty(parts) == NonEmpty(front) + [last];
        assert (NonEmpty(front) + [last])[..|NonEmpty(front)|] == NonEmpty(front);
      } else {
        NothingCounts(front);
        assert parts == front + [[]];
      }
    }
  }

  lemma TotalOfWords(s: string)
    ensures Total(Words(s)) == Letters(s)
  {
    TotalOfPieces(s);
    TotalOfNonEmpty(Pieces(s));
  }

  lemma {:induction false} LettersFront(c: char, s: string)
    ensures Letters([c] + s) == (if c == ' ' then 0 else 1) + Letters(s)
  {
    if s == [] {
      assert [c] + s == [c] && [c][..0] == [];
    } else {
      assert ([c] + s)[..|s|] == [c] + s[..|s| - 1];
      LettersFront(c, s[..|s| - 1]);
    }
  }

  lemma {:induction false} TrimLeftWords(s: string)
    ensures Letters(TrimLeft(s)) <= Letters(s)
    ensures Letters(TrimLeft(s)) == Letters(s) ==> Words(TrimLeft(s)) == Words(s)
    ensures Letters(TrimLeft(s)) == Letters(s) <==> (Words(s) != [] ==> !StartsOdd(Words(s)[0]))
    decreases |s|
  {
    if s == [] {
      WordsOfNothing();
    } else {
      assert s == [s[0]] + s[1..];
      LettersFront(s[0], s[1..]);
      if s[0] == ' ' {
        assert s == [] + [' '] + s[1..];
        WordsConcat([], s[1..]);
        WordsOfNothing();
        assert [] + Words(s[1..]) == Words(s[1..]);
        TrimLeftWords(s[1..]);
      } else {
        FirstLetter(s);
        if IsSpace(s[0]) {
          TrimLeftWords(s[1..]);
        }
      }
    }
  }

  /** A text that does not start with a space starts with its first word. */
  lemma {:induction false} FirstLetter(s: string)
    requires s != [] && s[0] != ' '
    ensures Pieces(s)[0] != [] && Pieces(s)[0][0] == s[0]
    ensures Words(s) != [] && Words(s)[0] != [] && Words(s)[0][0] == s[0]
  {
    FirstPiece(s);
    FirstKept(Pieces(s));
  }

  lemma {:induction false} FirstPiece(s: string)
    requires s != [] && s[0] != ' '
    ensures Pieces(s)[0] != [] && Pieces(s)[0][0] == s[0]
  {
    if |s| > 1 {
      FirstPiece(s[..|s| - 1]);
    } else {
      assert s[..0] == [] && Pieces([]) == [[]];
    }
  }

  lemma {:induction false} FirstKept(parts: seq<string>)
    requires parts != [] && parts[0] != []
    ensures NonEmpty(parts) != [] && NonEmpty(parts)[0] == parts[0]
  {
    if |parts| > 1 {
      FirstKept(parts[..|parts| - 1]);
    } else {
      assert parts[..0] == [] && NonEmpty([]) == [];
    }
  }

  lemma {:induction false} TrimRightWords(s: string)
    ensures Letters(TrimRight(s)) <= Letters(s)
    ensures Letters(TrimRight(s)) == Letters(s) ==> Words(TrimRight(s)) == Words(s)
    ensures Letters(TrimRight(s)) == Letters(s) <==> (Words(s) != [] ==> !EndsOdd(Words(s)[|Words(s)| - 1]))
    decreases |s|
  {
    if s == [] {
      WordsOfNothing();
    } else if s[|s| - 1] == ' ' {
      assert s == s[..|s| - 1] + [' '] + [];
      WordsConcat(s[..|s| - 1], []);
      WordsOfNothing();
      TrimRightWords(s[..|s| - 1]);
    } else {
      var r := Pieces(s[..|s| - 1]);
      var last := r[|r| - 1] + [s[|s| - 1]];
      assert Pieces(s)[|r| - 1] == last && last != [];
      assert Words(s) == NonEmpty(Pieces(s)[..|r| - 1]) + [last];
      if IsSpace(s[|s| - 1]) {
        TrimRightWords(s[..|s| - 1]);
      }
    }
  }

  /** Trimming keeps the words exactly when they are trimmable. */
  lemma TrimKeepsWords(s: string)
    ensures Words(Trim(s)) == Words(s) <==> Trimmable(Words(s))
  {
    var t := TrimLeft(s);
    TrimLeftWords(s);
    TrimRightWords(t);
    TotalOfWords(s);
    TotalOfWords(t);
    TotalOfWords(Trim(s));
  }

  lemma {:induction false} TrimLeftStarts(s: string)
    ensures TrimLeft(s) != [] ==> !IsSpace(TrimLeft(s)[0])
    decreases |s|
  {
    if s != [] && IsSpace(s[0]) {
      TrimLeftStarts(s[1..]);
    }
  }

  lemma {:induction false} TrimRightEnds(s: string)
    ensures TrimRight(s) <= s
    ensures TrimRight(s) != [] ==> !IsSpace(TrimRight(s)[|TrimRight(s)| - 1])
  {
    if s != [] && IsSpace(s[|s| - 1]) {
      TrimRightEnds(s[..|s| - 1]);
    }
  }

  /** What has been trimmed is trimmable. */
  lemma TrimmedIsTrimmable(s: string)
    ensures Trimmable(Words(Trim(s)))
  {
    TrimLeftStarts(s);
    TrimRightEnds(TrimLeft(s));
    assert TrimLeft(Trim(s)) == Trim(s) && TrimRight(Trim(s)) == Trim(s);
    TrimKeepsWords(Trim(s));
  }

  /** A class name that ends with a no-break space loses it. */
  lemma OddSpaceLost()
    ensures var s := ['a', 0xA0 as char]; Words(s) == [s] && Trim(s) == ['a'] && Words(Trim(s)) != Words(s)
  {
    var s := ['a', 0xA0 as char];
    OneWord(s);
    OneWord(['a']);
    assert s[..1] == ['a'];
    assert TrimLeft(s) == s && TrimRight(s) == TrimRight(['a']);
  }

  // ---------- the three operations on one element ----------

  /** The words with the missing ones of a list appended. */
  function WithAll(words: seq<string>, more: seq<string>): (all: seq<string>)
    ensures words <= all
    decreases |more|
  {
    if more == [] then words
    else WithAll(if more[0] in words then words else words + [more[0]], more[1..])
  }

  function WithoutAll(words: seq<string>, gone: seq<string>): seq<string> {
    Keep(words, w => w !in gone)
  }

  method Contains(cur: string, clazz: string) returns (b: bool)
    requires Fenced(cur) && clazz != [] && ' ' !in clazz
    ensures b <==> clazz in Words(cur)
  {
    var i := IndexOf(cur, Spaced(clazz));
    SpacedOccurs(cur, clazz);
    b := i >= 0;
  }

  lemma TokenHasNoSpace(w: string)
    requires IsToken(w)
    ensures w != [] && ' ' !in w
  {
  }

  lemma FencedNormal(className: string)
    ensures Fenced(Normalize([' '] + className + [' ']))
    ensures Words(Normalize([' '] + className + [' '])) == ClassWords(className)
  {
    var n := Normalize([' '] + className + [' ']);
    assert n == [] + [' '] + (Normalize(className) + [' '] + []);
    WordsConcat([], Normalize(className) + [' '] + []);
    WordsConcat(Normalize(className), []);
    WordsOfNothing();
    assert [] + (Words(Normalize(className)) + []) == Words(Normalize(className));
  }

  /** className after addClass(value) */
  method AddClass(className: string, value: string) returns (r: string)
    ensures value == [] ==> r == className
    ensures value != [] ==>
      (ClassWords(r) == WithAll(ClassWords(className), Tokens(value)) <==> Trimmable(WithAll(ClassWords(className), Tokens(value))))
    ensures value != [] ==> Trimmable(ClassWords(r))
  {
    if value == [] {
      return className;
    }
    var classes := Tokens(value);
    var cur := if className != [] then Normalize([' '] + className + [' ']) else [' '];
    FencedNormal(className);
    if className == [] {
      assert Normalize([' '] + className + [' ']) == [' '] + [' '] + [];
      WordsConcat([' '], []);
      WordsOfNothing();
      assert ClassWords(className) == Words(cur) by { assert Normalize([]) == []; assert cur == [] + [' '] + []; WordsConcat([], []); }
    }
    var j := 0;
    while j < |classes|
      invariant 0 <= j <= |classes| && Fenced(cur) && Normalize(cur) == cur
      invariant WithAll(Words(cur), classes[j..]) == WithAll(ClassWords(className), classes)
    {
      var clazz := classes[j];
      TokenHasNoSpace(clazz);
      var there := Contains(cur, clazz);
      if !there {
        AppendWord(cur, clazz);
        cur := cur + clazz + [' '];
      }
      j := j + 1;
    }
    TrimKeepsWords(cur);
    TrimmedIsTrimmable(cur);
    TrimNormal(cur);
    r := Trim(cur);
  }

  lemma AppendWord(cur: string, w: string)
    requires Fenced(cur) && IsToken(w) && Normalize(cur) == cur
    ensures Words(cur + w + [' ']) == Words(cur) + [w]
    ensures Normalize(cur + w + [' ']) == cur + w + [' '] && Fenced(cur + w + [' '])
  {
    var a := cur[..|cur| - 1];
    assert cur == a + [' '] + [];
    assert cur + w + [' '] == a + [' '] + (w + [' '] + []);
    WordsConcat(a, []);
    WordsConcat(a, w + [' '] + []);
    WordsConcat(w, []);
    WordsOfNothing();
    TokenHasNoSpace(w);
    PieceOfWord(w);
    assert Words(w) == [w] by { assert [w][..0] == []; }
  }

  lemma {:induction false} TrimLeftNormal(s: string)
    requires Normalize(s) == s
    ensures Normalize(TrimLeft(s)) == TrimLeft(s)
    decreases |s|
  {
    if s != [] && IsSpace(s[0]) {
      assert Normalize(s[1..]) == s[1..];
      TrimLeftNormal(s[1..]);
    }
  }

  lemma {:induction false} TrimRightNormal(s: string)
    requires Normalize(s) == s
    ensures Normalize(TrimRight(s)) == TrimRight(s)
  {
    if s != [] && IsSpace(s[|s| - 1]) {
      assert Normalize(s[..|s| - 1]) == s[..|s| - 1];
      TrimRightNormal(s[..|s| - 1]);
    }
  }

  lemma TrimNormal(s: string)
    requires Normalize(s) == s
    ensures Normalize(Trim(s)) == Trim(s)
  {
    TrimLeftNormal(s);
    TrimRightNormal(TrimLeft(s));
  }

  /** className after removeClass(value), or after removeClass() */
  method RemoveClass(className: string, value: Option<string>) returns (r: string)
    ensures value == None ==> r == []
    ensures value == Some([]) ==> r == className
    ensures value.Some? && value.value != [] ==>
      (ClassWords(r) == WithoutAll(ClassWords(className), Tokens(value.value))
       <==> Trimmable(WithoutAll(ClassWords(className), Tokens(value.value))))
    ensures value.Some? && value.value != [] ==> Trimmable(ClassWords(r))
  {
    if value == None || value == Some([]) {
      return if value == None then [] else className;
    }
    var classes := Tokens(value.value);
    if className == [] {
      EmptyClass(classes);
      return className;
    }
    var cur := Normalize([' '] + className + [' ']);
    FencedNormal(className);
    var j := 0;
    KeepAll(Words(cur));
    while j < |classes|
      invariant 0 <= j <= |classes| && Fenced(cur) && Normalize(cur) == cur
      invariant Words(cur) == WithoutAll(ClassWords(className), classes[..j])
    {
      var clazz := classes[j];
      cur := RemoveWord(cur, clazz);
      WithoutOneMore(ClassWords(className), classes, j);
      j := j + 1;
    }
    assert classes[..j] == classes;
    TrimKeepsWords(cur);
    TrimmedIsTrimmable(cur);
    TrimNormal(cur);
    r := Trim(cur);
  }

  /** The inner loop: replaces the first spaced occurrence by a space until there is none. */
  method RemoveWord(text: string, clazz: string) returns (cur: string)
    requires Fenced(text) && Normalize(text) == text && IsToken(clazz)
    ensures Fenced(cur) && Normalize(cur) == cur
    ensures Words(cur) == Keep(Words(text), w => w != clazz)
  {
    TokenHasNoSpace(clazz);
    cur := text;
    var i := IndexOf(cur, Spaced(clazz));
    while i >= 0
      invariant Fenced(cur) && Normalize(cur) == cur
      invariant Keep(Words(cur), w => w != clazz) == Keep(Words(text), w => w != clazz)
      invariant i == -1 ==> forall k: nat :: !OccursAt(cur, Spaced(clazz), k)
      invariant i != -1 ==> 0 <= i && OccursAt(cur, Spaced(clazz), i)
      decreases |cur|
    {
      ReplaceOne(cur, clazz, i);
      cur := cur[..i] + [' '] + cur[i + |clazz| + 2..];
      i := IndexOf(cur, Spaced(clazz));
    }
    SpacedOccurs(cur, clazz);
    KeepAbsent(Words(cur), clazz);
  }

  lemma ReplaceOne(s: string, w: string, i: nat)
    requires Fenced(s) && Normalize(s) == s && w != [] && ' ' !in w && OccursAt(s, Spaced(w), i)
    ensures var t := s[..i] + [' '] + s[i + |w| + 2..];
      && Fenced(t) && Normalize(t) == t && |t| < |s|
      && Keep(Words(t), x => x != w) == Keep(Words(s), x => x != w)
  {
    var a, b := s[..i], s[i + |w| + 2..];
    assert s == a + Spaced(w) + b;
    DropSpaced(a, w, b);
    StaysNormal(a, Spaced(w), b);
    StaysFenced(a, Spaced(w), b);
  }

  lemma StaysFenced(a: string, w: string, b: string)
    requires Fenced(a + w + b)
    ensures Fenced(a + [' '] + b)
  {
    var s := a + w + b;
    assert a == [] || a[0] == s[0];
    assert b == [] || b[|b| - 1] == s[|s| - 1];
  }

  lemma StaysNormal(a: string, w: string, b: string)
    requires Normalize(a + w + b) == a + w + b
    ensures Normalize(a + [' '] + b) == a + [' '] + b
  {
    var s, t := a + w + b, a + [' '] + b;
    forall k | 0 <= k < |t|
      ensures !IsBreak(t[k])
    {
      if k < |a| {
        assert s[k] == t[k];
      } else if k > |a| {
        assert s[k - 1 + |w|] == t[k];
      }
    }
  }

  lemma DropSpaced(a: string, w: string, b: string)
    requires w != [] && ' ' !in w
    ensures Keep(Words(a + [' '] + b), x => x != w) == Keep(Words(a + Spaced(w) + b), x => x != w)
  {
    assert a + Spaced(w) + b == a + [' '] + (w + [' '] + b);
    WordsConcat(a, w + [' '] + b);
    WordsConcat(w, b);
    WordsConcat(a, b);
    OneWord(w);
    DropOne(Words(a), w, Words(b));
  }

  lemma DropOne(before: seq<string>, w: string, after: seq<string>)
    ensures Keep(before + ([w] + after), x => x != w) == Keep(before + after, x => x != w)
  {
    var f := x => x != w;
    KeepConcat(before, after, f);
    KeepConcat(before, [w] + after, f);
    KeepConcat([w], after, f);
    KeepSnoc([], w, f);
    assert [] + [w] == [w];
  }

  lemma OneWord(w: string)
    requires w != [] && ' ' !in w
    ensures Words(w) == [w]
  {
    PieceOfWord(w);
    KeepSnoc([], w, p => p != []);
    assert [] + [w] == [w];
  }

  lemma {:induction false} KeepAbsent(words: seq<string>, w: string)
    requires w !in words
    ensures Keep(words, x => x != w) == words
  {
    if words != [] {
      KeepAbsent(words[..|words| - 1], w);
    }
  }

  lemma {:induction false} KeepAll(words: seq<string>)
    ensures WithoutAll(words, []) == words
  {
    if words != [] {
      KeepAll(words[..|words| - 1]);
    }
  }

  lemma WithoutOneMore(words: seq<string>, classes: seq<string>, j: nat)
    requires j < |classes|
    ensures Keep(WithoutAll(words, classes[..j]), w => w != classes[j]) == WithoutAll(words, classes[..j + 1])
  {
    assert classes[..j + 1] == classes[..j] + [classes[j]];
    KeepKeep(words, w => w !in classes[..j], w => w != classes[j], w => w !in classes[..j + 1]);
  }

  lemma EmptyClass(classes: seq<string>)
    ensures ClassWords([]) == [] && WithoutAll([], classes) == []
  {
    assert Normalize([]) == [];
    WordsOfNothing();
  }

  /** One list of pieces stands inside another, with something on either side. */
  ghost predicate Inside(block: seq<string>, parts: seq<string>) {
    exists before, after :: Around(before, block, after, parts)
  }

  predicate Around(before: seq<string>, block: seq<string>, after: seq<string>, parts: seq<string>) {
    before != [] && after != [] && parts == before + (block + after)
  }

  lemma BlockOfText(a: string, w: string, b: string)
    ensures Around(Pieces(a), Pieces(w), Pieces(b), Pieces(a + Spaced(w) + b))
  {
    Bracket(a, w, b);
    PiecesConcat(a, w + [' '] + b);
    PiecesConcat(w, b);
  }

  lemma TextOfBlock(s: string, w: string, before: seq<string>, after: seq<string>)
    requires Around(before, Pieces(w), after, Pieces(s))
    ensures s == Rejoin(before) + Spaced(w) + Rejoin(after)
  {
    RejoinPieces(s);
    RejoinPieces(w);
    RejoinAround(before, Pieces(w), after);
  }

  /** A spaced text occurs exactly where its pieces stand inside the pieces of the whole. */
  lemma SpacedBlock(s: string, w: string)
    ensures Inside(Pieces(w), Pieces(s)) <==> exists i: nat :: OccursAt(s, Spaced(w), i)
  {
    if i: nat :| OccursAt(s, Spaced(w), i) {
      assert s == s[..i] + Spaced(w) + s[i + |w| + 2..];
      BlockOfText(s[..i], w, s[i + |w| + 2..]);
    }
    if before, after :| Around(before, Pieces(w), after, Pieces(s)) {
      TextOfBlock(s, w, before, after);
      OccursInside(Rejoin(before), Spaced(w), Rejoin(after));
    }
  }

  /** hasClass agrees with membership; asked for several names, it looks for them side by side. */
  method HasClass(className: string, selector: string) returns (b: bool)
    ensures b <==> Inside(Pieces(selector), Pieces(Normalize([' '] + className + [' '])))
    ensures selector != [] && ' ' !in selector ==> (b <==> selector in ClassWords(className))
  {
    var text := Normalize([' '] + className + [' ']);
    FencedNormal(className);
    SpacedBlock(text, selector);
    var i := IndexOf(text, Spaced(selector));
    if selector != [] && ' ' !in selector {
      SpacedOccurs(text, selector);
    }
    b := i >= 0;
  }

  // ---------- adding and removing are word-list operations ----------

  lemma {:induction false} AddedMembers(words: seq<string>, more: seq<string>, w: string)
    ensures w in WithAll(words, more) <==> w in words || w in more
    decreases |more|
  {
    if more != [] {
      AddedMembers(if more[0] in words then words else words + [more[0]], more[1..], w);
      assert more == [more[0]] + more[1..];
    }
  }

  lemma {:induction false} AddedOnce(words: seq<string>, more: seq<string>, k: nat)
    requires |words| <= k < |WithAll(words, more)|
    ensures WithAll(words, more)[k] !in WithAll(words, more)[..k]
    decreases |more|
  {
    if more != [] {
      var next := if more[0] in words then words else words + [more[0]];
      if k < |next| {
        FirstAdded(words, more[0], WithAll(words, more));
      } else {
        AddedOnce(next, more[1..], k);
      }
    }
  }

  /** Adding appends exactly the missing words: the old words stay in front, and nothing is doubled. */
  lemma AddedWords(words: seq<string>, more: seq<string>)
    ensures forall w :: w in WithAll(words, more) <==> w in words || w in more
    ensures forall k :: |words| <= k < |WithAll(words, more)| ==> WithAll(words, more)[k] !in WithAll(words, more)[..k]
  {
    forall w ensures w in WithAll(words, more) <==> w in words || w in more {
      AddedMembers(words, more, w);
    }
    forall k | |words| <= k < |WithAll(words, more)| ensures WithAll(words, more)[k] !in WithAll(words, more)[..k] {
      AddedOnce(words, more, k);
    }
  }

  lemma FirstAdded(words: seq<string>, w: string, all: seq<string>)
    requires words + [w] <= all && w !in words
    ensures all[|words|] !in all[..|words|]
  {
    assert all[..|words|] == (words + [w])[..|words|] == words;
    assert all[|words|] == (words + [w])[|words|];
  }

  /** Removing the words that adding brought in restores the list. */
  lemma RemoveUndoesAdd(words: seq<string>, more: seq<string>)
    ensures WithoutAll(WithAll(words, more), WithAll(words, more)[|words|..]) == words
  {
    var added := WithAll(words, more)[|words|..];
    AddedAreNew(words, more);
    assert WithAll(words, more) == words + added;
    KeepConcat(words, added, w => w !in added);
    KeepNone(added, w => w !in added);
    KeepThose(words, added);
  }

  /** Words that come from a list of names are harmless to trimming, so only the old ones matter. */
  lemma TrimmableWithAll(words: seq<string>, more: seq<string>)
    requires forall k :: 0 <= k < |more| ==> IsToken(more[k])
    ensures Trimmable(words) ==> Trimmable(WithAll(words, more))
  {
    var all := WithAll(words, more);
    AddedWords(words, more);
    forall k | |words| <= k < |all|
      ensures IsToken(all[k])
    {
      assert all[k] in words || all[k] in more;
      assert all[k] !in all[..k] && all[..k][..|words|] == words;
    }
  }

  lemma SomeMember(words: seq<string>)
    ensures words == [] || exists w :: w in words
  {
    if words != [] {
      assert words[0] in words;
    }
  }

  lemma SameGone(words: seq<string>, gone: seq<string>, also: seq<string>)
    requires forall w :: w in gone <==> w in also
    ensures WithoutAll(words, gone) == WithoutAll(words, also)
  {
    KeepAgree(words, w => w !in gone, w => w !in also);
  }

  /**
    Adding names to a class attribute and then removing the ones that were new restores
    its words if and only if these are trimmable to begin with.
   */
  method AddThenRemove(className: string, value: string, gone: string) returns (r: string)
    requires value != []
    requires forall w :: w in Tokens(gone) <==> w in WithAll(ClassWords(className), Tokens(value))[|ClassWords(className)|..]
    ensures ClassWords(r) == ClassWords(className) <==> Trimmable(ClassWords(className))
  {
    var added := AddClass(className, value);
    r := RemoveClass(added, Some(gone));
    ghost var words, all := ClassWords(className), WithAll(ClassWords(className), Tokens(value));
    TrimmableWithAll(words, Tokens(value));
    RemoveUndoesAdd(words, Tokens(value));
    SameGone(all, Tokens(gone), all[|words|..]);
    if gone == [] {
      SomeMember(all[|words|..]);
      assert all == words;
    }
  }

  lemma AddedAreNew(words: seq<string>, more: seq<string>)
    ensures forall w :: w in WithAll(words, more)[|words|..] ==> w !in words
  {
    AddedWords(words, more);
    var all := WithAll(words, more);
    forall k | |words| <= k < |all|
      ensures all[k] !in words
    {
      assert all[..k][..|words|] == words;
    }
  }

  lemma {:induction false} KeepThose(words: seq<string>, gone: seq<string>)
    requires forall w :: w in gone ==> w !in words
    ensures Keep(words, w => w !in gone) == words
  {
    if words != [] {
      KeepThose(words[..|words| - 1], gone);
    }
  }
}
