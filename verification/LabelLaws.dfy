/** What a label says: which words, how much of them, and when two labels agree. */
module LabelLaws {
  import opened Labels

  // ---------- words ----------

  /** The words of a text: its stretches without white space. */
  function Words(s: Text): seq<Text> {
    if s == [] then []
    else
      var rest, last := s[..|s| - 1], s[|s| - 1];
      var words := Words(rest);
      if IsSpace(last) then words
      else if words == [] || IsSpace(rest[|rest| - 1]) then words + [[last]]
      else words[..|words| - 1] + [words[|words| - 1] + [last]]
  }

  lemma {:induction false} NoWords(s: Text)
    ensures Words(s) == [] <==> forall i :: 0 <= i < |s| ==> IsSpace(s[i])
  {
    if s != [] {
      NoWords(s[..|s| - 1]);
    }
  }

  /** A collapsed text ends in white space exactly if the text does. */
  lemma {:induction false} CollapseEnd(s: Text)
    ensures Collapse(s) == [] <==> s == []
    ensures s != [] ==> (IsSpace(Collapse(s)[|Collapse(s)| - 1]) <==> IsSpace(s[|s| - 1]))
    ensures s != [] && IsSpace(s[|s| - 1]) ==> Collapse(s)[|Collapse(s)| - 1] == SPACE
  {
    if s != [] {
      CollapseEnd(s[..|s| - 1]);
    }
  }

  lemma WordsNext(s: Text, u: Unit)
    ensures var words := Words(s);
      Words(s + [u])
      == if IsSpace(u) then words
         else if words == [] || IsSpace(s[|s| - 1]) then words + [[u]]
         else words[..|words| - 1] + [words[|words| - 1] + [u]]
  {
    assert (s + [u])[..|s|] == s;
  }

  lemma {:induction false} CollapseKeepsWords(s: Text)
    ensures Words(Collapse(s)) == Words(s)
  {
    if s != [] {
      var rest, last := s[..|s| - 1], s[|s| - 1];
      var c := Collapse(rest);
      CollapseKeepsWords(rest);
      CollapseEnd(rest);
      WordsNext(c, if IsSpace(last) then SPACE else last);
    }
  }

  lemma {:induction false} TrimEndKeepsWords(s: Text)
    ensures Words(TrimEnd(s)) == Words(s)
  {
    if s != [] && IsSpace(s[|s| - 1]) {
      TrimEndKeepsWords(s[..|s| - 1]);
    }
  }

  lemma {:induction false} LeadingSpace(s: Text)
    requires s != [] && IsSpace(s[0])
    ensures Words(s[1..]) == Words(s)
  {
    if |s| > 1 {
      var n := |s| - 1;
      LeadingSpace(s[..n]);
      NoWords(s[..n][1..]);
      assert s[1..][..n - 1] == s[..n][1..];
    }
  }

  lemma {:induction false} TrimStartKeepsWords(s: Text)
    ensures Words(TrimStart(s)) == Words(s)
    decreases |s|
  {
    if s != [] && IsSpace(s[0]) {
      LeadingSpace(s);
      TrimStartKeepsWords(s[1..]);
    }
  }

  /** Normalizing a text keeps its words: the result is the trimmed text with single plain spaces that has the
      same words in the same order. */
  lemma NormalizeKeepsWords(s: Text)
    ensures Words(Normalize(s)) == Words(s) && Trimmed(Normalize(s)) && Collapsed(Normalize(s))
  {
    CollapseKeepsWords(s);
    TrimStartKeepsWords(Collapse(s));
    TrimEndKeepsWords(TrimStart(Collapse(s)));
    NormalizeFacts(s);
  }

  // ---------- the words decide ----------

  /** The words with one space between each two. */
  function Join(words: seq<Text>): Text {
    if words == [] then []
    else if |words| == 1 then words[0]
    else Join(words[..|words| - 1]) + [SPACE] + words[|words| - 1]
  }

  /** One more word. */
  lemma JoinNext(words: seq<Text>, word: Text)
    requires words != []
    ensures Join(words + [word]) == Join(words) + [SPACE] + word
  {
    assert (words + [word])[..|words|] == words;
  }

  /** One more unit in the last word. */
  lemma JoinGrows(before: seq<Text>, word: Text, u: Unit)
    ensures Join(before + [word + [u]]) == Join(before + [word]) + [u]
  {
    if before != [] {
      JoinNext(before, word);
      JoinNext(before, word + [u]);
      Regroup(Join(before) + [SPACE], word, [u]);
    }
  }

  lemma Regroup(a: Text, b: Text, c: Text)
    ensures a + (b + c) == (a + b) + c
  {
  }

  lemma CollapsedPrefix(s: Text)
    requires s != [] && Collapsed(s)
    ensures Collapsed(s[..|s| - 1])
    ensures |s| > 1 && IsSpace(s[|s| - 2]) ==> !IsSpace(s[|s| - 1]) && s[|s| - 2] == SPACE
    ensures IsSpace(s[|s| - 1]) ==> s[|s| - 1] == SPACE
  {
  }

  lemma {:induction false} CollapsedIsJoin(s: Text)
    requires Collapsed(s) && (s != [] ==> !IsSpace(s[0]))
    ensures s != [] ==> Words(s) != []
    ensures s == if s != [] && IsSpace(s[|s| - 1]) then Join(Words(s)) + [SPACE] else Join(Words(s))
  {
    if s != [] {
      var rest, last := s[..|s| - 1], s[|s| - 1];
      CollapsedPrefix(s);
      CollapsedIsJoin(rest);
      JoinStep(s, rest, last);
    }
  }

  lemma JoinStep(s: Text, rest: Text, last: Unit)
    requires s == rest + [last] && (rest != [] ==> Words(rest) != []) && (rest == [] ==> !IsSpace(last))
    requires rest == if rest != [] && IsSpace(rest[|rest| - 1]) then Join(Words(rest)) + [SPACE] else Join(Words(rest))
    requires rest != [] && IsSpace(rest[|rest| - 1]) ==> !IsSpace(last)
    requires IsSpace(last) ==> last == SPACE
    ensures Words(s) != [] && s == if IsSpace(last) then Join(Words(s)) + [SPACE] else Join(Words(s))
  {
    WordsNext(rest, last);
    if rest != [] && !IsSpace(last) {
      if IsSpace(rest[|rest| - 1]) {
        JoinNext(Words(rest), [last]);
      } else {
        var words := Words(rest);
        assert words == words[..|words| - 1] + [words[|words| - 1]];
        JoinGrows(words[..|words| - 1], words[|words| - 1], last);
      }
    }
  }

  /** A normalized text is its words with one plain space between each two. */
  lemma NormalIsJoin(s: Text)
    ensures Normalize(s) == Join(Words(s))
  {
    NormalizeKeepsWords(s);
    CollapsedIsJoin(Normalize(s));
  }

  /** White space around a text does not show in its label. */
  lemma TrimKeepsLabel(s: Text, max: nat)
    ensures Words(Trim(s)) == Words(s) && Normalize(Trim(s)) == Normalize(s)
    ensures Summarize(Trim(s), max) == Summarize(s, max)
    ensures Trim(s) == [] <==> Words(s) == []
  {
    TrimStartKeepsWords(s);
    TrimEndKeepsWords(TrimStart(s));
    NormalIsJoin(s);
    NormalIsJoin(Trim(s));
    TrimTrims(s);
    NoWords(Trim(s));
  }

  // ---------- cutting ----------

  /** A text that fits is its own label; a longer one is cut to its first max units and marked with three dots;
      one without words has the label of an unnamed node. */
  lemma LabelLength(s: Text, max: nat)
    ensures var n, r := Normalize(s), Summarize(s, max);
      && (Words(s) == [] <==> n == [])
      && (Words(s) == [] ==> |r| == 5)
      && (0 < |n| <= max ==> r == n)
      && (|n| > max ==> |r| == max + 3 && r[..max] <= n && forall i :: max <= i < max + 3 ==> r[i] == 0x2E)
  {
    NormalizeKeepsWords(s);
    NoWords(Normalize(s));
    var n := Normalize(s);
    if n != [] {
      assert !IsSpace(n[0]);
    }
  }

  /** When two labels agree: two texts that fit, if they are the same up to white space; two that are cut, if
      their first max units are; a text that fits and one without words, if the text is the label of unnamed
      nodes. */
  lemma LabelsAgreeExact(a: Text, b: Text, max: nat)
    ensures var m, n := Normalize(a), Normalize(b);
      Summarize(a, max) == Summarize(b, max)
      <==> || m == n
           || (|m| > max && |n| > max && m[..max] == n[..max])
           || (m == [] && n == UNNAMED && |n| <= max)
           || (n == [] && m == UNNAMED && |m| <= max)
  {
    var m, n := Normalize(a), Normalize(b);
    if |m| > max && |n| > max && Summarize(a, max) == Summarize(b, max) {
      assert (m[..max] + DOTS)[..max] == m[..max] && (n[..max] + DOTS)[..max] == n[..max];
    }
    if |m| > max {
      assert Summarize(a, max)[|Summarize(a, max)| - 1] == 0x2E;
    }
    if |n| > max {
      assert Summarize(b, max)[|Summarize(b, max)| - 1] == 0x2E;
    }
    assert UNNAMED[4] != 0x2E;
  }

  /** A text that ends where a cut label ends, in three dots. */
  predicate LooksCut(t: Text, max: nat) {
    |t| == max + 3 && forall i :: max <= i < max + 3 ==> t[i] == 0x2E
  }

  lemma LooksCutExact(t: Text, max: nat)
    ensures LooksCut(t, max) <==> |t| >= max && t == t[..max] + DOTS
  {
    if LooksCut(t, max) {
      assert t[max..] == DOTS && t == t[..max] + t[max..];
    }
  }

  /** Which trimmed texts are labels already: those with single plain spaces that fit or have been cut. */
  lemma IsLabelExact(t: Text, max: nat)
    requires t != [] && Trimmed(t)
    ensures Summarize(t, max) == t <==> Collapsed(t) && (|t| <= max || LooksCut(t, max))
  {
    SummaryIsNormal(t, max);
    LooksCutExact(t, max);
    if Collapsed(t) {
      NormalIsFixed(t);
    }
  }
}
