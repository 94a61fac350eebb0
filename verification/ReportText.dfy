/** What a recorded text is, character by character: `str.split` and `join` told by where the letters stand. The
    text of several parts has their letters in order; two neighbours stand together in it exactly when they stand
    together in one part, and otherwise one blank lies between them. There is only one such text. It is built one
    character at a time: space adds nothing at first, and a letter adds itself, after a blank if space came
    before it. */
module ReportText {
  import opened Basics
  import opened Results
  import opened Nesting
  import opened ReportDocument

  // --- Where the letters are ---

  /** The places of all characters of a text that are not space, in order. */
  ghost predicate ListsLetters(text: string, at: seq<nat>) {
    && (forall n, m :: 0 <= n < m < |at| ==> at[n] < at[m])
    && (forall i: nat :: i in at <==> i < |text| && !IsSpace(text[i]))
  }

  /** The same over several parts: the part and the place in it, part after part. */
  ghost predicate ListsPartLetters(parts: seq<string>, at: seq<(nat, nat)>) {
    && (forall n, m :: 0 <= n < m < |at| ==> at[n].0 < at[m].0 || (at[n].0 == at[m].0 && at[n].1 < at[m].1))
    && (forall p: nat, i: nat :: (p, i) in at <==> p < |parts| && i < |parts[p]| && !IsSpace(parts[p][i]))
  }

  /** Blanks stand one at a time between letters, and there is no other space. */
  ghost predicate SingleBlanks(text: string) {
    && (text != "" ==> !IsSpace(text[0]) && !IsSpace(text[|text| - 1]))
    && (forall i :: 0 <= i < |text| && IsSpace(text[i]) ==> text[i] == ' ')
    && (forall i :: 0 <= i < |text| - 1 ==> !IsSpace(text[i]) || !IsSpace(text[i + 1]))
  }

  /** The text has the letters of the parts in order, and two neighbours of them stand together exactly when they
      do so in one part. */
  ghost predicate SameLetters(parts: seq<string>, from: seq<(nat, nat)>, text: string, at: seq<nat>) {
    && |from| == |at|
    && (forall n :: 0 <= n < |at| ==>
          && at[n] < |text| && from[n].0 < |parts| && from[n].1 < |parts[from[n].0]|
          && text[at[n]] == parts[from[n].0][from[n].1])
    && (forall n :: 0 <= n < |at| - 1 ==>
          (at[n + 1] == at[n] + 1 <==> from[n + 1] == (from[n].0, from[n].1 + 1)))
  }

  /** The text of the parts, with every run of space and every end of a part as one blank. */
  ghost predicate IsTextOf(parts: seq<string>, text: string) {
    && SingleBlanks(text)
    && exists from, at :: ListsPartLetters(parts, from) && ListsLetters(text, at) && SameLetters(parts, from, text, at)
  }

  // --- One more character ---

  function Clean(s: string): string {
    Joined(Words(s, ""), " ")
  }

  lemma {:induction false} JoinedMore(parts: seq<string>, last: string, separator: string)
    ensures Joined(parts + [last], separator) ==
            if parts == [] then last else Joined(parts, separator) + separator + last
  {
    if parts == [] {
      assert parts + [last] == [last];
    } else {
      assert (parts + [last])[1..] == parts[1..] + [last];
      JoinedMore(parts[1..], last, separator);
      if |parts| == 1 {
        assert parts[1..] == [];
      }
    }
  }

  lemma {:induction false} WordsSpace(s: string, word: string, c: char)
    requires IsSpace(c)
    ensures Words(s + [c], word) == Words(s, word)
    decreases |s|
  {
    hide IsSpace;
    if s == "" {
      assert Words("", "") == [];
      assert (s + [c])[1..] == "";
    } else {
      assert (s + [c])[1..] == s[1..] + [c];
      WordsSpace(s[1..], if IsSpace(s[0]) then "" else word + [s[0]], c);
    }
  }

  /** A letter begins a word of its own after space, and otherwise goes on with the last one. */
  lemma {:induction false} WordsLetter(s: string, word: string, c: char)
    requires !IsSpace(c)
    ensures var ws, more := Words(s, word), Words(s + [c], word);
            if (if s == "" then word == "" else IsSpace(s[|s| - 1])) then more == ws + [[c]]
            else ws != [] && more == ws[..|ws| - 1] + [ws[|ws| - 1] + [c]]
    decreases |s|
  {
    hide IsSpace;
    if s == "" {
      assert (s + [c])[1..] == "";
      assert Words("", word + [c]) == [word + [c]] && (word == "" ==> word + [c] == [c]);
    } else {
      assert (s + [c])[1..] == s[1..] + [c];
      WordsLetter(s[1..], if IsSpace(s[0]) then "" else word + [s[0]], c);
    }
  }

  lemma {:induction false} LastLonger(parts: seq<string>, c: char, separator: string)
    requires parts != []
    ensures Joined(parts[..|parts| - 1] + [parts[|parts| - 1] + [c]], separator) == Joined(parts, separator) + [c]
  {
    var front, last := parts[..|parts| - 1], parts[|parts| - 1];
    JoinedMore(front, last, separator);
    JoinedMore(front, last + [c], separator);
    assert parts == front + [last];
  }

  lemma {:induction false} WordsNone(s: string, word: string)
    ensures Words(s, word) == [] <==> word == "" && forall i :: 0 <= i < |s| ==> IsSpace(s[i])
    ensures forall w <- Words(s, word) :: w != ""
    decreases |s|
  {
    hide IsSpace;
    if s != "" {
      var next := if IsSpace(s[0]) then "" else word + [s[0]];
      WordsNone(s[1..], next);
      assert forall i :: 1 <= i < |s| ==> s[i] == s[1..][i - 1];
    }
  }

  /** How the cleaned text grows: space adds nothing, a letter itself, after a blank if space came before it. */
  lemma CleanStep(s: string, c: char)
    ensures IsSpace(c) ==> Clean(s + [c]) == Clean(s)
    ensures !IsSpace(c) ==>
              Clean(s + [c]) ==
              Clean(s) + (if s != "" && IsSpace(s[|s| - 1]) && Words(s, "") != [] then " " else "") + [c]
  {
    hide IsSpace, Words;
    if IsSpace(c) {
      WordsSpace(s, "", c);
    } else {
      WordsLetter(s, "", c);
      var ws := Words(s, "");
      if s == "" || IsSpace(s[|s| - 1]) {
        WordsNone(s, "");
        JoinedMore(ws, [c], " ");
      } else {
        LastLonger(ws, c, " ");
      }
    }
  }

  // --- One text ---

  /** Both texts have the same letters in order, and neighbours stand together in the one exactly when they do in the
      other. */
  ghost predicate Alike(s: string, from: seq<nat>, t: string, at: seq<nat>) {
    && |from| == |at|
    && (forall n :: 0 <= n < |at| ==> from[n] < |s| && at[n] < |t| && t[at[n]] == s[from[n]])
    && (forall n :: 0 <= n < |at| - 1 ==> (at[n + 1] == at[n] + 1 <==> from[n + 1] == from[n] + 1))
  }

  ghost predicate Cleaned(s: string, from: seq<nat>, t: string, at: seq<nat>) {
    && ListsLetters(s, from) && ListsLetters(t, at) && Alike(s, from, t, at) && SingleBlanks(t)
    && (t == "" <==> at == []) && (at != [] ==> at[|at| - 1] == |t| - 1)
  }

  lemma OneMoreLetter(s: string, from: seq<nat>, c: char)
    requires ListsLetters(s, from)
    ensures ListsLetters(s + [c], if IsSpace(c) then from else from + [|s|])
  {
    hide IsSpace;
    forall n | 0 <= n < |from| ensures from[n] < |s| {
      assert from[n] in from;
    }
  }

  lemma LastLetter(s: string, from: seq<nat>)
    requires ListsLetters(s, from) && s != ""
    ensures !IsSpace(s[|s| - 1]) <==> from != [] && from[|from| - 1] == |s| - 1
  {
    hide IsSpace;
    if !IsSpace(s[|s| - 1]) {
      assert |s| - 1 in from;
    }
    assert forall n :: 0 <= n < |from| ==> from[n] in from;
    assert from != [] ==> from[|from| - 1] in from;
  }

  function Grown(t: string, gap: bool, c: char): string {
    t + (if gap then " " else "") + [c]
  }

  lemma BlanksGrow(t: string, gap: bool, c: char)
    requires SingleBlanks(t) && !IsSpace(c) && (gap ==> t != "")
    ensures SingleBlanks(Grown(t, gap, c))
  {
    if gap {
      assert Grown(t, gap, c) == t + [' ', c];
    } else {
      assert Grown(t, gap, c) == t + [c];
    }
  }

  lemma LettersGrow(t: string, at: seq<nat>, gap: bool, c: char)
    requires ListsLetters(t, at) && !IsSpace(c)
    ensures ListsLetters(Grown(t, gap, c), at + [|Grown(t, gap, c)| - 1])
  {
    hide ListsLetters;
    OneMoreLetter(t, at, ' ');
    if gap {
      OneMoreLetter(t + " ", at, c);
    } else {
      OneMoreLetter(t, at, c);
      assert t + "" + [c] == t + [c];
    }
  }

  lemma AlikeGrows(s: string, from: seq<nat>, t: string, at: seq<nat>, gap: bool, c: char)
    requires Alike(s, from, t, at)
    requires at != [] ==> (gap <==> from[|from| - 1] != |s| - 1) && at[|at| - 1] == |t| - 1
    ensures Alike(s + [c], from + [|s|], Grown(t, gap, c), at + [|Grown(t, gap, c)| - 1])
  {
    var grown := Grown(t, gap, c);
    assert forall i :: 0 <= i < |t| ==> grown[i] == t[i];
    var from', at' := from + [|s|], at + [|grown| - 1];
    forall n | 0 <= n < |at'| - 1 ensures at'[n + 1] == at'[n] + 1 <==> from'[n + 1] == from'[n] + 1 {
      if n < |at| - 1 {
        assert at'[n + 1] == at[n + 1] && from'[n + 1] == from[n + 1];
      }
    }
  }

  lemma CleanedGrows(s: string, from: seq<nat>, t: string, at: seq<nat>, gap: bool, c: char)
    requires Cleaned(s, from, t, at) && !IsSpace(c) && (gap <==> from != [] && s != "" && IsSpace(s[|s| - 1]))
    ensures Cleaned(s + [c], from + [|s|], Grown(t, gap, c), at + [|Grown(t, gap, c)| - 1])
  {
    hide IsSpace, SingleBlanks, ListsLetters, Alike;
    SameCount(s, from, t, at);
    BlanksGrow(t, gap, c);
    LettersGrow(t, at, gap, c);
    OneMoreLetter(s, from, c);
    if from != [] {
      LastLetter(s, from);
    }
    AlikeGrows(s, from, t, at, gap, c);
  }

  lemma SameCount(s: string, from: seq<nat>, t: string, at: seq<nat>)
    requires Alike(s, from, t, at)
    ensures |from| == |at| && (from != [] ==> s != "")
  {
    assert from != [] ==> from[0] < |s|;
  }

  lemma NoWords(s: string, from: seq<nat>)
    requires ListsLetters(s, from)
    ensures Words(s, "") == [] <==> from == []
  {
    hide IsSpace, Words;
    WordsNone(s, "");
    if i :| 0 <= i < |s| && !IsSpace(s[i]) {
      assert i in from;
    }
    assert from != [] ==> from[0] in from;
  }

  lemma {:induction false} CleanLetters(s: string) returns (from: seq<nat>, at: seq<nat>)
    ensures Cleaned(s, from, Clean(s), at)
  {
    hide IsSpace, Words, Joined, Cleaned, ListsLetters;
    if s == "" {
      from, at := [], [];
      NothingCleaned();
    } else {
      var front, c := s[..|s| - 1], s[|s| - 1];
      assert s == front + [c];
      from, at := CleanLetters(front);
      CleanedLists(front, from, Clean(front), at);
      CleanStep(front, c);
      NoWords(front, from);
      if IsSpace(c) {
        SpaceCleaned(front, from, Clean(front), at, c);
      } else {
        var gap := from != [] && front != "" && IsSpace(front[|front| - 1]);
        CleanedGrows(front, from, Clean(front), at, gap, c);
        from, at := from + [|front|], at + [|Clean(s)| - 1];
      }
    }
  }

  lemma NothingCleaned()
    ensures Cleaned("", [], Clean(""), [])
  {}

  lemma CleanedLists(s: string, from: seq<nat>, t: string, at: seq<nat>)
    requires Cleaned(s, from, t, at)
    ensures ListsLetters(s, from)
  {}

  lemma SpaceCleaned(s: string, from: seq<nat>, t: string, at: seq<nat>, c: char)
    requires Cleaned(s, from, t, at) && IsSpace(c)
    ensures Cleaned(s + [c], from, t, at)
  {
    hide IsSpace, ListsLetters, SingleBlanks;
    OneMoreLetter(s, from, c);
  }

  // --- Several parts ---

  lemma {:induction false} LettersExist(s: string) returns (at: seq<nat>)
    ensures ListsLetters(s, at)
  {
    hide IsSpace;
    if s == "" {
      at := [];
    } else {
      var front, c := s[..|s| - 1], s[|s| - 1];
      assert s == front + [c];
      at := LettersExist(front);
      OneMoreLetter(front, at, c);
      at := if IsSpace(c) then at else at + [|front|];
    }
  }

  /** Letter by letter, the joined text and the parts. */
  ghost predicate Spread(parts: seq<string>, spots: seq<(nat, nat)>, s: string, from: seq<nat>) {
    && ListsPartLetters(parts, spots) && ListsLetters(s, from) && SameLetters(parts, spots, s, from)
  }

  function Spots(p: nat, at: seq<nat>): seq<(nat, nat)> {
    seq(|at|, n requires 0 <= n < |at| => (p, at[n]))
  }

  function Shifted(at: seq<nat>, offset: nat): seq<nat> {
    seq(|at|, n requires 0 <= n < |at| => at[n] + offset)
  }

  lemma OneMorePart(parts: seq<string>, spots: seq<(nat, nat)>, part: string, at: seq<nat>)
    requires ListsPartLetters(parts, spots) && ListsLetters(part, at)
    ensures ListsPartLetters(parts + [part], spots + Spots(|parts|, at))
  {
    hide IsSpace;
    var more := Spots(|parts|, at);
    forall n | 0 <= n < |spots| ensures spots[n].0 < |parts| {
      assert spots[n] in spots && (spots[n].0, spots[n].1) == spots[n];
    }
    forall p: nat, i: nat ensures (p, i) in more <==> p == |parts| && i in at {
      if p == |parts| && i in at {
        var n :| 0 <= n < |at| && at[n] == i;
        assert more[n] == (p, i);
      }
    }
    forall p: nat, i: nat
      ensures (p, i) in spots + more <==>
              p < |parts + [part]| && i < |(parts + [part])[p]| && !IsSpace((parts + [part])[p][i])
    {
      assert (p, i) in spots + more <==> (p, i) in spots || (p, i) in more;
    }
  }

  lemma TextAfter(s: string, from: seq<nat>, gap: string, part: string, at: seq<nat>)
    requires ListsLetters(s, from) && ListsLetters(part, at) && forall c <- gap :: IsSpace(c)
    ensures ListsLetters(s + gap + part, from + Shifted(at, |s + gap|))
  {
    hide IsSpace;
    var whole, offset := s + gap + part, |s + gap|;
    var more := Shifted(at, offset);
    forall n | 0 <= n < |from| ensures from[n] < |s| {
      assert from[n] in from;
    }
    forall i: nat ensures i in more <==> i >= offset && i - offset in at {
      if i >= offset && i - offset in at {
        var n :| 0 <= n < |at| && at[n] == i - offset;
        assert more[n] == i;
      }
    }
    forall i: nat ensures i in from + more <==> i < |whole| && !IsSpace(whole[i]) {
      if i < |s| {
        assert whole[i] == s[i];
      } else if i < offset {
        assert whole[i] == gap[i - |s|];
      } else if i < |whole| {
        assert whole[i] == part[i - offset];
      }
      assert i in from + more <==> i in from || i in more;
    }
  }

  lemma LettersTogether(parts: seq<string>, spots: seq<(nat, nat)>, s: string, from: seq<nat>, gap: string,
                        part: string, at: seq<nat>, n: nat)
    requires SameLetters(parts, spots, s, from) && (forall i <- at :: i < |part|) && n < |from| + |at|
    ensures var whole, all := s + gap + part, parts + [part];
            var spots', from' := spots + Spots(|parts|, at), from + Shifted(at, |s + gap|);
            && from'[n] < |whole| && spots'[n].0 < |all| && spots'[n].1 < |all[spots'[n].0]|
            && whole[from'[n]] == all[spots'[n].0][spots'[n].1]
  {
    var whole, all, spots' := s + gap + part, parts + [part], spots + Spots(|parts|, at);
    if n < |from| {
      assert spots'[n] == spots[n] && all[spots[n].0] == parts[spots[n].0] && whole[from[n]] == s[from[n]];
    } else {
      var i := at[n - |from|];
      assert i in at && whole[|s + gap| + i] == part[i];
    }
  }

  lemma NeighboursTogether(parts: seq<string>, spots: seq<(nat, nat)>, s: string, from: seq<nat>, gap: string,
                           at: seq<nat>, n: nat)
    requires SameLetters(parts, spots, s, from) && (from != [] ==> gap != "") && n + 1 < |from| + |at|
    ensures var spots', from' := spots + Spots(|parts|, at), from + Shifted(at, |s + gap|);
            from'[n + 1] == from'[n] + 1 <==> spots'[n + 1] == (spots'[n].0, spots'[n].1 + 1)
  {
    var spots', from' := spots + Spots(|parts|, at), from + Shifted(at, |s + gap|);
    if n + 1 < |from| {
      assert from'[n + 1] == from[n + 1] && spots'[n + 1] == spots[n + 1];
    }
  }

  lemma SpreadTogether(parts: seq<string>, spots: seq<(nat, nat)>, s: string, from: seq<nat>, gap: string, part: string,
                       at: seq<nat>)
    requires SameLetters(parts, spots, s, from) && (forall i <- at :: i < |part|) && (from != [] ==> gap != "")
    ensures SameLetters(parts + [part], spots + Spots(|parts|, at), s + gap + part, from + Shifted(at, |s + gap|))
  {
    forall n: nat | n < |from| + |at| {
      LettersTogether(parts, spots, s, from, gap, part, at, n);
    }
    forall n: nat | n + 1 < |from| + |at| {
      NeighboursTogether(parts, spots, s, from, gap, at, n);
    }
  }

  lemma LettersWithin(s: string, at: seq<nat>)
    requires ListsLetters(s, at)
    ensures forall i <- at :: i < |s|
  {}

  lemma OnePartMore(parts: seq<string>, spots: seq<(nat, nat)>, s: string, from: seq<nat>, part: string)
      returns (spots': seq<(nat, nat)>, from': seq<nat>)
    requires Spread(parts, spots, s, from) && (parts == [] ==> s == "")
    ensures Spread(parts + [part], spots', if parts == [] then part else s + " " + part, from')
  {
    hide IsSpace, ListsLetters, ListsPartLetters, SameLetters;
    var at := LettersExist(part);
    var gap := if parts == [] then "" else " ";
    LettersWithin(part, at);
    NoPartsNoLetters(parts, spots, s, from);
    OneMorePart(parts, spots, part, at);
    GapIsSpace(gap);
    TextAfter(s, from, gap, part, at);
    SpreadTogether(parts, spots, s, from, gap, part, at);
    spots', from' := spots + Spots(|parts|, at), from + Shifted(at, |s + gap|);
    assert parts == [] ==> s + gap + part == part;
  }

  lemma GapIsSpace(gap: string)
    requires gap == "" || gap == " "
    ensures forall c <- gap :: IsSpace(c)
  {}

  lemma NoPartsNoLetters(parts: seq<string>, spots: seq<(nat, nat)>, s: string, from: seq<nat>)
    requires Spread(parts, spots, s, from) && (parts == [] ==> s == "")
    ensures parts == [] ==> from == []
  {
    assert from != [] ==> from[0] in from;
  }

  lemma NothingSpread()
    ensures Spread([], [], Joined([], " "), [])
  {
  }

  /** Joining puts the parts' letters in line, and keeps those of different parts apart. */
  lemma {:induction false} JoinedSpread(parts: seq<string>) returns (spots: seq<(nat, nat)>, from: seq<nat>)
    ensures Spread(parts, spots, Joined(parts, " "), from)
  {
    hide Joined, Spread;
    if parts == [] {
      spots, from := [], [];
      NothingSpread();
    } else {
      var front, last := parts[..|parts| - 1], parts[|parts| - 1];
      assert parts == front + [last];
      spots, from := JoinedSpread(front);
      JoinedMore(front, last, " ");
      JoinedNone();
      spots, from := OnePartMore(front, spots, Joined(front, " "), from, last);
    }
  }

  lemma JoinedNone()
    ensures Joined([], " ") == ""
  {}

  /** A text's letters can be listed in one way only. */
  lemma {:induction false} LettersUnique(a: seq<nat>, b: seq<nat>)
    requires forall n, m :: 0 <= n < m < |a| ==> a[n] < a[m]
    requires forall n, m :: 0 <= n < m < |b| ==> b[n] < b[m]
    requires forall i: nat :: i in a <==> i in b
    ensures a == b
  {
    assert b != [] ==> b[0] in b;
    if a != [] {
      var k, l := |a| - 1, |b| - 1;
      assert a[k] in a && b[l] in b;
      assert a[k] == b[l];
      assert a == a[..k] + [a[k]] && b == b[..l] + [b[l]];
      assert a[k] !in a[..k] && b[l] !in b[..l];
      forall i: nat ensures i in a[..k] <==> i in b[..l] {
        assert (i in a <==> i in a[..k] || i == a[k]) && (i in b <==> i in b[..l] || i == b[l]);
      }
      LettersUnique(a[..k], b[..l]);
    }
  }

  lemma SameListing(s: string, a: seq<nat>, b: seq<nat>)
    requires ListsLetters(s, a) && ListsLetters(s, b)
    ensures a == b
  {
    LettersUnique(a, b);
  }

  /** A recorded text is the text of its parts. */
  lemma TextOfParts(parts: seq<string>)
    ensures IsTextOf(parts, Normalised(parts))
  {
    hide Joined, ListsLetters, ListsPartLetters, SingleBlanks;
    var joined := Joined(parts, " ");
    var spots, from := JoinedSpread(parts);
    var again, at := CleanLetters(joined);
    SameListing(joined, from, again);
    assert Clean(joined) == Normalised(parts);
    assert SameLetters(parts, spots, Normalised(parts), at);
  }

  // --- There is no other text of the same parts ---

  ghost predicate SpotsAscend(at: seq<(nat, nat)>) {
    forall n, m :: 0 <= n < m < |at| ==> at[n].0 < at[m].0 || (at[n].0 == at[m].0 && at[n].1 < at[m].1)
  }

  ghost predicate SameSpots(a: seq<(nat, nat)>, b: seq<(nat, nat)>) {
    forall p: nat, i: nat :: (p, i) in a <==> (p, i) in b
  }

  lemma LastSpots(a: seq<(nat, nat)>, b: seq<(nat, nat)>)
    requires SpotsAscend(a) && SpotsAscend(b) && a != [] && b != [] && SameSpots(a, b)
    ensures a[|a| - 1] == b[|b| - 1]
  {
    var x, y := a[|a| - 1], b[|b| - 1];
    assert (x.0, x.1) in a;
    assert (y.0, y.1) in b;
  }

  lemma FrontSpots(a: seq<(nat, nat)>, p: nat, i: nat)
    requires SpotsAscend(a) && a != []
    ensures (p, i) in a[..|a| - 1] <==> (p, i) in a && (p, i) != a[|a| - 1]
  {
    assert a == a[..|a| - 1] + [a[|a| - 1]];
  }

  lemma NoSpots(a: seq<(nat, nat)>, b: seq<(nat, nat)>)
    requires SameSpots(a, b)
    ensures a == [] <==> b == []
  {
    assert (a != [] ==> (a[0].0, a[0].1) in a) && (b != [] ==> (b[0].0, b[0].1) in b);
  }

  lemma FewerSpots(a: seq<(nat, nat)>, b: seq<(nat, nat)>)
    requires SpotsAscend(a) && SpotsAscend(b) && a != [] && b != [] && SameSpots(a, b)
    ensures SameSpots(a[..|a| - 1], b[..|b| - 1])
  {
    hide SpotsAscend;
    LastSpots(a, b);
    forall p: nat, i: nat ensures (p, i) in a[..|a| - 1] <==> (p, i) in b[..|b| - 1] {
      FrontSpots(a, p, i);
      FrontSpots(b, p, i);
    }
  }

  lemma {:induction false} SpotsUnique(a: seq<(nat, nat)>, b: seq<(nat, nat)>)
    requires SpotsAscend(a) && SpotsAscend(b) && SameSpots(a, b)
    ensures a == b
  {
    hide SameSpots;
    NoSpots(a, b);
    if a != [] {
      LastSpots(a, b);
      FewerSpots(a, b);
      SpotsUnique(a[..|a| - 1], b[..|b| - 1]);
      assert a == a[..|a| - 1] + [a[|a| - 1]] && b == b[..|b| - 1] + [b[|b| - 1]];
    }
  }

  /** With single blanks between them, the letters' places follow from which neighbours stand together. */
  lemma NextLetter(t: string, at: seq<nat>, n: nat)
    requires SingleBlanks(t) && ListsLetters(t, at) && n + 1 < |at|
    ensures at[n + 1] == at[n] + 1 || at[n + 1] == at[n] + 2
  {
    hide IsSpace;
    var i := at[n] + 1;
    assert at[n + 1] in at;
    if at[n + 1] > i {
      assert i !in at by {
        NotBetween(at, n, i);
      }
      if at[n + 1] > i + 1 {
        NotBetween(at, n, i + 1);
      }
    }
  }

  lemma NotBetween(at: seq<nat>, n: nat, i: nat)
    requires (forall m, k :: 0 <= m < k < |at| ==> at[m] < at[k]) && n + 1 < |at| && at[n] < i < at[n + 1]
    ensures i !in at
  {}

  lemma EndLetters(t: string, at: seq<nat>)
    requires SingleBlanks(t) && ListsLetters(t, at)
    ensures t == "" <==> at == []
    ensures at != [] ==> at[0] == 0 && at[|at| - 1] == |t| - 1
  {
    hide IsSpace;
    if t != "" {
      assert 0 in at && |t| - 1 in at;
    }
    assert at != [] ==> at[0] in at && at[|at| - 1] in at;
  }

  lemma {:induction false} SamePlaces(t: string, at: seq<nat>, u: string, to: seq<nat>, n: nat)
    requires SingleBlanks(t) && ListsLetters(t, at) && SingleBlanks(u) && ListsLetters(u, to) && |at| == |to|
    requires forall m :: 0 <= m < |at| - 1 ==> (at[m + 1] == at[m] + 1 <==> to[m + 1] == to[m] + 1)
    requires n < |at|
    ensures at[n] == to[n]
  {
    hide ListsLetters, SingleBlanks;
    EndLetters(t, at);
    EndLetters(u, to);
    if n > 0 {
      SamePlaces(t, at, u, to, n - 1);
      NextLetter(t, at, n - 1);
      NextLetter(u, to, n - 1);
    }
  }

  /** Two texts of the same parts are the same text. */
  lemma OneText(parts: seq<string>, t: string, u: string)
    requires IsTextOf(parts, t) && IsTextOf(parts, u)
    ensures t == u
  {
    var from, at :| ListsPartLetters(parts, from) && ListsLetters(t, at) && SameLetters(parts, from, t, at);
    var again, to :| ListsPartLetters(parts, again) && ListsLetters(u, to) && SameLetters(parts, again, u, to);
    SpotsUnique(from, again);
    SameTexts(parts, from, t, at, u, to);
  }

  lemma SameTexts(parts: seq<string>, from: seq<(nat, nat)>, t: string, at: seq<nat>, u: string, to: seq<nat>)
    requires SingleBlanks(t) && SingleBlanks(u) && ListsLetters(t, at) && ListsLetters(u, to)
    requires SameLetters(parts, from, t, at) && SameLetters(parts, from, u, to)
    ensures t == u
  {
    hide IsSpace;
    forall n: nat | n < |at| ensures at[n] == to[n] {
      SamePlaces(t, at, u, to, n);
    }
    EndLetters(t, at);
    EndLetters(u, to);
    forall i: nat | i < |t| ensures t[i] == u[i] {
      if i in at {
        var n :| 0 <= n < |at| && at[n] == i;
      } else {
        assert i !in to;
      }
    }
  }

  /** What is recorded of collected parts is their text, and nothing else is. */
  lemma RecordedText(parts: seq<string>, text: string)
    ensures text == Normalised(parts) <==> IsTextOf(parts, text)
  {
    hide Normalised, IsTextOf;
    TextOfParts(parts);
    if IsTextOf(parts, text) {
      OneText(parts, text, Normalised(parts));
    }
  }

  /** Joined by nothing, the parts stand one after another. */
  lemma {:induction false} WholeText(parts: seq<string>, k: nat)
    requires k < |parts|
    ensures var before := Joined(parts[..k], "");
            Joined(parts, "") == before + parts[k] + Joined(parts[k + 1..], "")
    ensures Joined([], "") == ""
  {
    if k == 0 {
      assert parts[..0] == [];
      assert |parts| == 1 ==> parts[1..] == [];
    } else {
      WholeText(parts[1..], k - 1);
      assert parts[1..][..k - 1] == parts[..k][1..] && parts[1..][k - 1] == parts[k];
      assert parts[1..][k..] == parts[k + 1..];
      var rest := parts[..k][1..];
      assert parts[0] + "" + Joined(rest, "") == Joined(parts[..k], "") by {
        assert rest == [] ==> parts[..k] == [parts[0]];
      }
    }
  }
}
