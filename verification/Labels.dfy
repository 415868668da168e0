/** The label function of the graph client, on strings of UTF-16 code units. */
module Labels {
  type Unit = u: int | 0 <= u < 0x1_0000
  type Text = seq<Unit>

  const SPACE: Unit := 0x20
  const DOTS: Text := [0x2E, 0x2E, 0x2E]

  /** The label of a node without text. */
  const UNNAMED: Text := [0x672A, 0x547D, 0x540D, 0x8282, 0x70B9]

  /** What `\s` and `trim` treat as white space (WhiteSpace and LineTerminator of ECMA-262). */
  predicate IsSpace(u: Unit) {
    || 0x9 <= u <= 0xD || u == 0x20 || u == 0xA0 || u == 0x1680 || 0x2000 <= u <= 0x200A
    || u == 0x2028 || u == 0x2029 || u == 0x202F || u == 0x205F || u == 0x3000 || u == 0xFEFF
  }

  /** `replace(/\s+/g, ' ')` */
  function Collapse(s: Text): Text {
    if s == [] then []
    else
      var rest, last := Collapse(s[..|s| - 1]), s[|s| - 1];
      if !IsSpace(last) then rest + [last]
      else if rest != [] && rest[|rest| - 1] == SPACE then rest
      else rest + [SPACE]
  }

  function TrimEnd(s: Text): Text {
    if s != [] && IsSpace(s[|s| - 1]) then TrimEnd(s[..|s| - 1]) else s
  }

  function TrimStart(s: Text): Text {
    if s != [] && IsSpace(s[0]) then TrimStart(s[1..]) else s
  }

  function Trim(s: Text): Text { TrimEnd(TrimStart(s)) }

  function Normalize(s: Text): Text { Trim(Collapse(s)) }

  /** `summarizeCandidateLabel` */
  function Summarize(s: Text, max: nat): Text {
    var n := Normalize(s);
    if n == [] then UNNAMED else if |n| <= max then n else n[..max] + DOTS
  }

  // ---------- normal forms ----------

  ghost predicate Trimmed(s: Text) {
    s != [] ==> !IsSpace(s[0]) && !IsSpace(s[|s| - 1])
  }

  /** Single plain spaces only. */
  ghost predicate Collapsed(s: Text) {
    && (forall i :: 0 <= i < |s| && IsSpace(s[i]) ==> s[i] == SPACE)
    && (forall i :: 0 <= i < |s| - 1 ==> !(IsSpace(s[i]) && IsSpace(s[i + 1])))
  }

  lemma {:induction false} CollapseCollapses(s: Text)
    ensures Collapsed(Collapse(s))
  {
    if s != [] {
      CollapseCollapses(s[..|s| - 1]);
    }
  }

  lemma {:induction false} CollapsedIsFixed(s: Text)
    requires Collapsed(s)
    ensures Collapse(s) == s
  {
    if s != [] {
      var rest, last := s[..|s| - 1], s[|s| - 1];
      assert s == rest + [last];
      CollapsedIsFixed(rest);
    }
  }

  lemma {:induction false} TrimEndIsPrefix(s: Text)
    ensures TrimEnd(s) <= s
    ensures TrimEnd(s) != [] ==> !IsSpace(TrimEnd(s)[|TrimEnd(s)| - 1])
  {
    if s != [] && IsSpace(s[|s| - 1]) {
      TrimEndIsPrefix(s[..|s| - 1]);
    }
  }

  lemma {:induction false} TrimStartIsSuffix(s: Text)
    ensures |TrimStart(s)| <= |s| && TrimStart(s) == s[|s| - |TrimStart(s)|..]
    ensures TrimStart(s) != [] ==> !IsSpace(TrimStart(s)[0])
  {
    if s != [] && IsSpace(s[0]) {
      TrimStartIsSuffix(s[1..]);
    }
  }

  lemma TrimTrims(s: Text)
    ensures Trimmed(Trim(s))
    ensures Collapsed(s) ==> Collapsed(Trim(s))
  {
    TrimStartIsSuffix(s);
    TrimEndIsPrefix(TrimStart(s));
    var d, t := |s| - |TrimStart(s)|, Trim(s);
    assert forall i :: 0 <= i < |t| ==> t[i] == s[d + i];
  }

  lemma TrimmedIsFixed(s: Text)
    requires Trimmed(s)
    ensures Trim(s) == s
  {
  }

  lemma NormalizeFacts(s: Text)
    ensures Trimmed(Normalize(s)) && Collapsed(Normalize(s))
  {
    CollapseCollapses(s);
    TrimTrims(Collapse(s));
  }

  lemma NormalIsFixed(s: Text)
    requires Trimmed(s) && Collapsed(s)
    ensures Normalize(s) == s
  {
    CollapsedIsFixed(s);
    TrimmedIsFixed(s);
  }

  /** Every label is in normal form, so trimming or normalizing it again changes nothing. */
  lemma SummaryIsNormal(s: Text, max: nat)
    ensures Summarize(s, max) != [] && Trimmed(Summarize(s, max)) && Collapsed(Summarize(s, max))
    ensures Trim(Summarize(s, max)) == Summarize(s, max) && Normalize(Summarize(s, max)) == Summarize(s, max)
  {
    NormalizeFacts(s);
    var n := Normalize(s);
    if |n| > max {
      CutIsNormal(n, max);
    }
    NormalIsFixed(Summarize(s, max));
    TrimmedIsFixed(Summarize(s, max));
  }

  lemma CutIsNormal(n: Text, max: nat)
    requires Trimmed(n) && Collapsed(n) && max < |n|
    ensures Trimmed(n[..max] + DOTS) && Collapsed(n[..max] + DOTS)
  {
    var cut := n[..max] + DOTS;
    forall i | 0 <= i < |cut| - 1 ensures !(IsSpace(cut[i]) && IsSpace(cut[i + 1])) {
      if i + 1 < max {
        assert cut[i] == n[i] && cut[i + 1] == n[i + 1];
      }
    }
  }

  /** Summarizing twice gives what summarizing once gave, for every string, exactly when the label of
      an empty text fits: cut and marked labels are cut at the same place again. */
  lemma SummarizeIdempotentExact(max: nat)
    ensures (forall s: Text :: Summarize(Summarize(s, max), max) == Summarize(s, max)) <==> max >= 5
  {
    if max >= 5 {
      forall s: Text ensures Summarize(Summarize(s, max), max) == Summarize(s, max) {
        SummarizeIdempotent(s, max);
      }
    } else {
      EmptyTextNotFixed(max);
    }
  }

  lemma SummarizeIdempotent(s: Text, max: nat)
    requires max >= 5
    ensures Summarize(Summarize(s, max), max) == Summarize(s, max)
  {
    SummaryIsNormal(s, max);
    var r := Summarize(s, max);
    if |r| > max {
      assert r[..max] == Normalize(s)[..max];
    }
  }

  lemma EmptyTextNotFixed(max: nat)
    requires max < 5
    ensures Summarize(Summarize([], max), max) != Summarize([], max)
  {
    SummaryIsNormal([], max);
    assert Summarize([], max) == UNNAMED;
    var r := Summarize(UNNAMED, max);
    assert r == UNNAMED[..max] + DOTS;
    assert r[max] == 0x2E;
  }
}
