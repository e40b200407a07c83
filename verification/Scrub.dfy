/**
 The scrubbing of free text before it goes to suppliers: passes of case-insensitive replacements, one after the
 other. The question is whether a later pass can put together again what an earlier one took out.
 */
module Scrub {
  /** Equality up to case, as re.I compares characters: two characters are the same when they fold alike. */
  type Fold = char -> char

  predicate IsSeparator(c: char) {
    c == '[' || c == ']' || c == ':'
  }

  /** The bracket and colon characters have no other case. */
  ghost predicate Caseless(fold: Fold) {
    forall a, b :: IsSeparator(a) && fold(a) == fold(b) ==> a == b
  }

  const PARTY_TEXT := "сторона скрыта"
  const HIDDEN_TEXT := "скрыто"
  const PARTY_HIDDEN := "[" + PARTY_TEXT + "]"
  const HIDDEN := "[" + HIDDEN_TEXT + "]"
  const FACTORY_WORD := "завод"
  const REQUEST_TEXT := "по запросу"
  const FACTORY_WORDS := [FACTORY_WORD, "factory", "plant"]
  const PLANT := "plant:X-12"
  const FACTORY_HIDDEN := FACTORY_WORD + ": [" + REQUEST_TEXT + "]"

  predicate Matches(fold: Fold, text: string, at: nat, s: string) {
    at + |s| <= |text| && forall i :: 0 <= i < |s| ==> fold(text[at + i]) == fold(s[i])
  }

  /** s does not occur in text, in any case. */
  predicate Clean(fold: Fold, text: string, s: string) {
    forall at :: 0 <= at <= |text| ==> !Matches(fold, text, at, s)
  }

  /** re.sub with an escaped literal: leftmost matches, not overlapping. */
  function ReplaceAll(fold: Fold, text: string, s: string, replacement: string): string
    requires s != []
    decreases |text|
  {
    if |text| < |s| then text
    else if Matches(fold, text, 0, s) then replacement + ReplaceAll(fold, text[|s|..], s, replacement)
    else [text[0]] + ReplaceAll(fold, text[1..], s, replacement)
  }

  /**
   One stretch of a text in a regex pass: kept as it is, or a match, of which a front part (the group \1, or
   nothing) stays and the rest gives way to a replacement.
   */
  datatype Piece = Keep(text: string) | Cut(kept: string, dropped: string, replacement: Replacement) {
    function Before(): string { if Keep? then text else kept + dropped }
    function After(): string { if Keep? then text else kept + replacement.Text() }
  }

  datatype Replacement = Party | Hidden | LabelHidden | Factory {
    function Text(): string {
      match this
      case Party => PARTY_HIDDEN
      case Hidden => HIDDEN
      case LabelHidden => ": " + HIDDEN
      case Factory => FACTORY_HIDDEN
    }
  }

  function Before(pieces: seq<Piece>): string {
    if pieces == [] then "" else pieces[0].Before() + Before(pieces[1..])
  }

  function After(pieces: seq<Piece>): string {
    if pieces == [] then "" else pieces[0].After() + After(pieces[1..])
  }

  /** A match loses what is dropped, and keeps what is in front of it and its own front part. */
  lemma PassMeans(front: string, kept: string, dropped: string, later: string, r: Replacement)
    ensures var pieces := [Keep(front), Cut(kept, dropped, r), Keep(later)];
            && Before(pieces) == front + kept + dropped + later
            && After(pieces) == front + kept + r.Text() + later
  {
    var pieces := [Keep(front), Cut(kept, dropped, r), Keep(later)];
    assert pieces[1..] == [pieces[1], pieces[2]] && pieces[1..][1..] == [pieces[2]] && pieces[1..][1..][1..] == [];
    hide Replacement.Text;
    assert Before([pieces[2]]) == later + "" && After([pieces[2]]) == later + "";
    assert Before([pieces[1], pieces[2]]) == kept + dropped + later;
    assert After([pieces[1], pieces[2]]) == kept + r.Text() + later;
  }

  /** No match gives way to the factory's text. */
  predicate Ordinary(pieces: seq<Piece>) {
    forall i :: 0 <= i < |pieces| && pieces[i].Cut? ==> !pieces[i].replacement.Factory?
  }

  /** What a pattern matches in a text is arbitrary, as long as it is a cut of that text. */
  type Pattern = p: string -> seq<Piece> | forall text :: Before(p(text)) == text && Ordinary(p(text))
    witness (text: string) => [Keep(text)]

  /** A pattern whose matches may also give way to the factory's text. */
  type CargoPattern = p: string -> seq<Piece> | forall text :: Before(p(text)) == text
    witness (text: string) => [Keep(text)]

  /** Can the secret be scrubbed at all? It has no separator in it and the replacements do not spell it. */
  ghost predicate Scrubbable(fold: Fold, s: string) {
    && 3 <= |s|
    && (forall i :: 0 <= i < |s| ==> !IsSeparator(s[i]))
    && Clean(fold, PARTY_TEXT, s) && Clean(fold, HIDDEN_TEXT, s)
  }

  function Ending(s: string, k: nat): (e: string)
    requires k <= |s|
    ensures |e| == k
  {
    s[|s| - k..]
  }

  /** Nor can the factory's text spell the secret, by itself or, with an ending of it, behind other text. */
  ghost predicate FactorySafe(fold: Fold, s: string) {
    && Clean(fold, FACTORY_WORD, s) && Clean(fold, REQUEST_TEXT, s)
    && forall k :: 0 < k <= |s| && k <= |FACTORY_WORD| ==> !Matches(fold, FACTORY_WORD, 0, Ending(s, k))
  }

  // --- occurrences and separators

  lemma MatchInside(fold: Fold, a: string, b: string, c: string, at: nat, s: string)
    ensures at + |s| <= |b| ==> (Matches(fold, b, at, s) <==> Matches(fold, a + b + c, |a| + at, s))
  {
    var t := a + b + c;
    assert forall j :: 0 <= j < |b| ==> t[|a| + j] == b[j];
    if at + |s| <= |b| && Matches(fold, t, |a| + at, s) {
      forall i | 0 <= i < |s|
        ensures fold(b[at + i]) == fold(s[i])
      {
        assert t[|a| + at + i] == b[at + i];
      }
    }
  }

  lemma CleanPart(fold: Fold, a: string, b: string, c: string, s: string)
    requires Clean(fold, a + b + c, s)
    ensures Clean(fold, b, s)
  {
    forall at | 0 <= at <= |b|
      ensures !Matches(fold, b, at, s)
    {
      MatchInside(fold, a, b, c, at, s);
    }
  }

  /** A separator splits the question in two. */
  lemma CleanAround(fold: Fold, a: string, sep: char, b: string, s: string)
    requires Caseless(fold) && IsSeparator(sep) && forall i :: 0 <= i < |s| ==> !IsSeparator(s[i])
    requires Clean(fold, a, s) && Clean(fold, b, s)
    ensures Clean(fold, a + [sep] + b, s)
  {
    var t := a + [sep] + b;
    forall at | 0 <= at <= |t|
      ensures !Matches(fold, t, at, s)
    {
      assert "" + a + ([sep] + b) == t && (a + [sep]) + b + "" == t;
      MatchInside(fold, "", a, [sep] + b, at, s);
      if |a| < at {
        MatchInside(fold, a + [sep], b, "", at - |a| - 1, s);
      } else if |a| < at + |s| {
        SeparatorNotInMatch(fold, t, at, s, |a| - at);
      }
    }
  }

  lemma SeparatorNotInMatch(fold: Fold, t: string, at: nat, s: string, k: nat)
    requires Caseless(fold) && k < |s| && at + k < |t| && IsSeparator(t[at + k]) && !IsSeparator(s[k])
    ensures !Matches(fold, t, at, s)
  {
  }

  lemma CleanShort(fold: Fold, text: string, s: string)
    requires |text| < |s|
    ensures Clean(fold, text, s)
  {
  }

  lemma CleanBracketed(fold: Fold, a: string, inside: string, b: string, s: string)
    requires Caseless(fold) && Scrubbable(fold, s) && Clean(fold, a, s) && Clean(fold, inside, s) && Clean(fold, b, s)
    ensures Clean(fold, a + ("[" + inside + "]") + b, s)
  {
    hide Clean, Caseless;
    CleanAround(fold, inside, ']', b, s);
    CleanAround(fold, a, '[', inside + [']'] + b, s);
    hide Scrubbable;
    assert a + ("[" + inside + "]") + b == a + ['['] + (inside + [']'] + b);
  }

  /** Nothing of the secret can reach into a replacement or across it. */
  lemma CleanReplacement(fold: Fold, a: string, r: Replacement, b: string, s: string)
    requires Caseless(fold) && Scrubbable(fold, s) && Clean(fold, a, s) && Clean(fold, b, s)
    requires r.Factory? ==> FactorySafe(fold, s)
    ensures Clean(fold, a + r.Text() + b, s)
  {
    hide Clean, Caseless, FactorySafe;
    match r
    case Party => CleanBracketed(fold, a, PARTY_TEXT, b, s);
    case Hidden => CleanBracketed(fold, a, HIDDEN_TEXT, b, s);
    case LabelHidden =>
      CleanShort(fold, " ", s);
      CleanBracketed(fold, " ", HIDDEN_TEXT, b, s);
      CleanAround(fold, a, ':', " " + HIDDEN + b, s);
      assert a + (": " + HIDDEN) + b == a + [':'] + (" " + HIDDEN + b);
    case Factory =>
      FactoryBehind(fold, a, s);
      FactoryParts(fold, s);
      CleanShort(fold, " ", s);
      CleanBracketed(fold, " ", REQUEST_TEXT, b, s);
      CleanAround(fold, a + FACTORY_WORD, ':', " " + ("[" + REQUEST_TEXT + "]") + b, s);
      FactoryLayout(a, b);
  }

  lemma FactoryLayout(a: string, b: string)
    ensures a + FACTORY_HIDDEN + b == a + FACTORY_WORD + [':'] + (" " + ("[" + REQUEST_TEXT + "]") + b)
  {
    hide FACTORY_WORD, REQUEST_TEXT;
    assert FACTORY_HIDDEN == FACTORY_WORD + ": [" + REQUEST_TEXT + "]";
    assert ": [" == [':'] + " " + "[";
    assert FACTORY_WORD + ": [" + REQUEST_TEXT + "]" == FACTORY_WORD + ([':'] + (" " + ("[" + REQUEST_TEXT + "]")));
  }

  lemma FactoryParts(fold: Fold, s: string)
    requires FactorySafe(fold, s)
    ensures Clean(fold, REQUEST_TEXT, s)
  {
  }

  /** A match that reaches over the end of a matches its ending in what comes after. */
  lemma EndingMatches(fold: Fold, a: string, word: string, at: nat, s: string)
    requires Matches(fold, a + word, at, s) && at < |a| < at + |s|
    ensures Matches(fold, word, 0, Ending(s, at + |s| - |a|))
  {
    var t, k := a + word, at + |s| - |a|;
    forall i | 0 <= i < k
      ensures fold(word[0 + i]) == fold(Ending(s, k)[i])
    {
      assert t[|a| + i] == word[i] && fold(t[at + (|a| + i - at)]) == fold(s[|a| + i - at]);
    }
  }

  /** Behind clean text, the factory's word completes no secret that is safe from it. */
  lemma FactoryBehind(fold: Fold, a: string, s: string)
    requires FactorySafe(fold, s) && Clean(fold, a, s)
    ensures Clean(fold, a + FACTORY_WORD, s)
  {
    var t := a + FACTORY_WORD;
    hide FACTORY_WORD;
    forall at | 0 <= at <= |t|
      ensures !Matches(fold, t, at, s)
    {
      assert "" + a + FACTORY_WORD == t && a + FACTORY_WORD + "" == t;
      MatchInside(fold, "", a, FACTORY_WORD, at, s);
      if |a| <= at {
        MatchInside(fold, a, FACTORY_WORD, "", at - |a|, s);
      } else if |a| < at + |s| <= |t| {
        var k := at + |s| - |a|;
        assert !Matches(fold, FACTORY_WORD, 0, Ending(s, k));
        if Matches(fold, t, at, s) {
          EndingMatches(fold, a, FACTORY_WORD, at, s);
        }
      }
    }
  }

  // --- each kind of pass

  lemma PiecesStep(pieces: seq<Piece>)
    requires pieces != []
    ensures var p, before, after := pieces[0], Before(pieces[1..]), After(pieces[1..]);
            && Before(pieces) == (if p.Keep? then p.text + before else p.kept + p.dropped + before)
            && After(pieces) == (if p.Keep? then p.text + after else p.kept + p.replacement.Text() + after)
  {
  }

  lemma ReplaceStep(fold: Fold, text: string, s: string, replacement: string)
    requires s != []
    ensures ReplaceAll(fold, text, s, replacement) ==
            if |text| < |s| then text
            else if Matches(fold, text, 0, s) then replacement + ReplaceAll(fold, text[|s|..], s, replacement)
            else [text[0]] + ReplaceAll(fold, text[1..], s, replacement)
  {
  }

  /** A regex pass never spells a secret that the text did not spell before it. */
  lemma {:induction false} PassKeeps(fold: Fold, u: string, pieces: seq<Piece>, s: string)
    requires Caseless(fold) && Scrubbable(fold, s) && Clean(fold, u + Before(pieces), s)
    requires Ordinary(pieces) || FactorySafe(fold, s)
    ensures Clean(fold, u + After(pieces), s)
    decreases |pieces|
  {
    hide *;
    OrdinaryStep(pieces);
    if pieces == [] {
      NoPieces(u);
    } else {
      PiecesStep(pieces);
      var p, rest := pieces[0], pieces[1..];
      var before, after := Before(rest), After(rest);
      if p.Keep? {
        Grouped(u, p.text, before);
        Grouped(u, p.text, after);
        PassKeeps(fold, u + p.text, rest, s);
      } else {
        CutParts(fold, u, p.kept, p.dropped, before, s);
        Grouped("", "", before);
        Grouped("", "", after);
        PassKeeps(fold, "", rest, s);
        CleanReplacement(fold, u + p.kept, p.replacement, after, s);
        Rejoined(u, p.kept, p.replacement.Text(), after);
      }
    }
  }

  lemma Grouped(a: string, b: string, c: string)
    ensures a + (b + c) == (a + b) + c && "" + c == c
  {
  }

  lemma OrdinaryStep(pieces: seq<Piece>)
    ensures pieces != [] && Ordinary(pieces) ==>
              Ordinary(pieces[1..]) && (pieces[0].Cut? ==> !pieces[0].replacement.Factory?)
  {
  }

  lemma NoPieces(u: string)
    ensures u + Before([]) == u + After([])
  {
  }

  lemma CutParts(fold: Fold, u: string, kept: string, dropped: string, later: string, s: string)
    requires Clean(fold, u + (kept + dropped + later), s)
    ensures Clean(fold, u + kept, s) && Clean(fold, later, s)
  {
    hide Clean;
    var all := u + (kept + dropped + later);
    assert all == "" + (u + kept) + (dropped + later);
    CleanPart(fold, "", u + kept, dropped + later, s);
    assert all == (u + kept + dropped) + later + "";
    CleanPart(fold, u + kept + dropped, later, "", s);
  }

  /** Taking out one literal never spells another. */
  lemma {:induction false} LiteralKeeps(fold: Fold, matchFold: Fold, u: string, text: string, q: string,
                                        r: Replacement, s: string)
    requires Caseless(fold) && Scrubbable(fold, s) && q != [] && Clean(fold, u + text, s) && !r.Factory?
    ensures Clean(fold, u + ReplaceAll(matchFold, text, q, r.Text()), s)
    decreases |text|
  {
    hide *;
    ReplaceStep(matchFold, text, q, r.Text());
    if |q| <= |text| {
      if Matches(matchFold, text, 0, q) {
        var rest := text[|q|..];
        assert u + text == "" + u + text && u + text == (u + text[..|q|]) + rest + "";
        CleanPart(fold, "", u, text, s);
        CleanPart(fold, u + text[..|q|], rest, "", s);
        assert "" + rest == rest;
        LiteralKeeps(fold, matchFold, "", rest, q, r, s);
        var later := ReplaceAll(matchFold, rest, q, r.Text());
        assert "" + later == later;
        CleanReplacement(fold, u, r, later, s);
        assert u + (r.Text() + later) == u + r.Text() + later;
      } else {
        assert u + text == (u + [text[0]]) + text[1..];
        LiteralKeeps(fold, matchFold, u + [text[0]], text[1..], q, r, s);
        var later := ReplaceAll(matchFold, text[1..], q, r.Text());
        assert u + ([text[0]] + later) == (u + [text[0]]) + later;
      }
    }
  }

  /** Where the scan has passed over u without a match, the pass takes out every occurrence. */
  lemma {:induction false} LiteralRemoves(fold: Fold, u: string, text: string, s: string, r: Replacement)
    requires Caseless(fold) && Scrubbable(fold, s) && !r.Factory?
    requires forall at :: 0 <= at < |u| ==> !Matches(fold, u + text, at, s)
    ensures Clean(fold, u + ReplaceAll(fold, text, s, r.Text()), s)
    decreases |text|
  {
    hide *;
    ScrubbableNonempty(fold, s);
    if |text| < |s| {
      ScanEnd(fold, u, text, s);
      ReplaceStep(fold, text, s, r.Text());
    } else if Matches(fold, text, 0, s) {
      LiteralRemovesFirst(fold, u, text, s, r);
    } else {
      ScanStep(fold, u, text, s);
      assert u + text == (u + [text[0]]) + text[1..];
      LiteralRemoves(fold, u + [text[0]], text[1..], s, r);
      ReplaceStep(fold, text, s, r.Text());
      var later := ReplaceAll(fold, text[1..], s, r.Text());
      assert u + ([text[0]] + later) == (u + [text[0]]) + later;
    }
  }

  lemma ScrubbableNonempty(fold: Fold, s: string)
    requires Scrubbable(fold, s)
    ensures 3 <= |s|
  {
  }

  lemma ScanEnd(fold: Fold, u: string, text: string, s: string)
    requires |text| < |s|
    requires forall at :: 0 <= at < |u| ==> !Matches(fold, u + text, at, s)
    ensures Clean(fold, u + text, s)
  {
  }

  lemma ScanStep(fold: Fold, u: string, text: string, s: string)
    requires text != [] && !Matches(fold, text, 0, s) && |s| <= |text|
    requires forall at :: 0 <= at < |u| ==> !Matches(fold, u + text, at, s)
    ensures forall at :: 0 <= at < |u + [text[0]]| ==> !Matches(fold, (u + [text[0]]) + text[1..], at, s)
  {
    assert u + text == u + text + "" && u + text == (u + [text[0]]) + text[1..];
    MatchInside(fold, u, text, "", 0, s);
    hide Matches;
  }

  lemma {:induction false} LiteralRemovesFirst(fold: Fold, u: string, text: string, s: string, r: Replacement)
    requires Caseless(fold) && Scrubbable(fold, s) && Matches(fold, text, 0, s) && !r.Factory?
    requires forall at :: 0 <= at < |u| ==> !Matches(fold, u + text, at, s)
    ensures Clean(fold, u + ReplaceAll(fold, text, s, r.Text()), s)
    decreases |text|, 0
  {
    ScrubbableNonempty(fold, s);
    PassedOver(fold, u, text, s);
    MatchFits(fold, text, s);
    hide *;
    var rest := text[|s|..];
    LiteralRemoves(fold, "", rest, s, r);
    ReplaceStep(fold, text, s, r.Text());
    var later := ReplaceAll(fold, rest, s, r.Text());
    assert "" + later == later;
    CleanReplacement(fold, u, r, later, s);
    assert u + (r.Text() + later) == u + r.Text() + later;
  }

  lemma MatchFits(fold: Fold, text: string, s: string)
    requires Matches(fold, text, 0, s)
    ensures |s| <= |text|
  {
  }

  lemma PassedOver(fold: Fold, u: string, text: string, s: string)
    requires forall at :: 0 <= at < |u| ==> !Matches(fold, u + text, at, s)
    requires s != []
    ensures Clean(fold, u, s)
  {
    forall at | 0 <= at <= |u|
      ensures !Matches(fold, u, at, s)
    {
      MatchInside(fold, "", u, text, at, s);
      assert "" + u + text == u + text;
    }
  }

  // --- the whole of it

  function ScrubSecrets(fold: Fold, text: string, secrets: seq<string>): string
    decreases |secrets|
  {
    if secrets == [] then text
    else
      var s := secrets[0];
      ScrubSecrets(fold, if |s| < 3 then text else ReplaceAll(fold, text, s, PARTY_HIDDEN), secrets[1..])
  }

  function ApplyAll(text: string, patterns: seq<Pattern>): string
    decreases |patterns|
  {
    if patterns == [] then text else ApplyAll(After(patterns[0](text)), patterns[1..])
  }

  const OWN_CASE: Fold := c => c

  /** The client's tax number is matched in its own case. */
  function ScrubNumber(text: string, inn: string): string {
    if inn == "" then text else ReplaceAll(OWN_CASE, text, inn, HIDDEN)
  }

  /** Whatever the text, the pattern leaves no occurrence of x in it. */
  ghost predicate Removes(fold: Fold, pattern: Pattern, x: string) {
    forall text :: Clean(fold, After(pattern(text)), x)
  }

  /** The route field: party secrets, party labels, the tax number, leak patterns. */
  function ScrubRoute(fold: Fold, text: string, secrets: seq<string>, labels: Pattern, inn: string,
                      leaks: seq<Pattern>): string {
    ApplyAll(ScrubNumber(After(labels(ScrubSecrets(fold, text, secrets))), inn), leaks)
  }

  /**
   The first occurrence gives way to the replacement, what is before it stays, and the rest is scanned from behind it.
   */
  lemma {:induction false} FirstGivesWay(fold: Fold, front: string, found: string, later: string, s: string,
                                         replacement: string)
    requires s != [] && |found| == |s| && Matches(fold, front + found + later, |front|, s)
    requires forall j :: 0 <= j < |front| ==> !Matches(fold, front + found + later, j, s)
    ensures ReplaceAll(fold, front + found + later, s, replacement)
         == front + replacement + ReplaceAll(fold, later, s, replacement)
    decreases |front|
  {
    hide *;
    var text := front + found + later;
    ReplaceStep(fold, text, s, replacement);
    Slices(front, found, later);
    if front == [] {
      assert front + replacement == replacement;
    } else {
      FirstShifts(fold, text, s, |front|);
      FirstGivesWay(fold, front[1..], found, later, s, replacement);
      Rejoined([front[0]], front[1..], replacement, ReplaceAll(fold, later, s, replacement));
    }
  }

  lemma Slices(front: string, found: string, later: string)
    ensures var text := front + found + later;
            && |found| <= |text|
            && if front == [] then text[|found|..] == later
               else text != [] && [text[0]] == [front[0]] && text[1..] == front[1..] + found + later
                    && [front[0]] + front[1..] == front
  {
  }

  lemma Rejoined(a: string, b: string, c: string, d: string)
    ensures a + (b + c + d) == (a + b) + c + d
  {
  }

  lemma FirstShifts(fold: Fold, text: string, s: string, at: nat)
    requires 0 < at && Matches(fold, text, at, s) && forall j :: 0 <= j < at ==> !Matches(fold, text, j, s)
    requires at <= |text|
    ensures Matches(fold, text[1..], at - 1, s) && forall j :: 0 <= j < at - 1 ==> !Matches(fold, text[1..], j, s)
    ensures !Matches(fold, text, 0, s)
  {
    hide *;
    MatchShifts(fold, text, at - 1, s);
    forall j | 0 <= j < at - 1
      ensures !Matches(fold, text[1..], j, s)
    {
      MatchShifts(fold, text, j, s);
    }
  }

  lemma MatchShifts(fold: Fold, text: string, j: nat, s: string)
    requires text != []
    ensures Matches(fold, text[1..], j, s) <==> Matches(fold, text, j + 1, s)
  {
    assert text == [text[0]] + text[1..] + "";
    if j + |s| <= |text| - 1 {
      MatchInside(fold, [text[0]], text[1..], "", j, s);
    }
  }

  lemma {:induction false} SecretsKeep(fold: Fold, text: string, secrets: seq<string>, s: string)
    requires Caseless(fold) && Scrubbable(fold, s) && Clean(fold, text, s)
    ensures Clean(fold, ScrubSecrets(fold, text, secrets), s)
    decreases |secrets|
  {
    hide Clean, Scrubbable, Caseless, ReplaceAll;
    if secrets != [] {
      var q := secrets[0];
      if |q| < 3 {
        SecretsKeep(fold, text, secrets[1..], s);
      } else {
        var next := ReplaceAll(fold, text, q, PARTY_HIDDEN);
        assert "" + text == text && "" + next == next;
        LiteralKeeps(fold, fold, "", text, q, Party, s);
        SecretsKeep(fold, next, secrets[1..], s);
      }
    }
  }

  /** In whatever place of the list the secret stands, it is gone after the party passes. */
  lemma {:induction false} SecretsRemove(fold: Fold, text: string, secrets: seq<string>, s: string)
    requires Caseless(fold) && Scrubbable(fold, s) && s in secrets
    ensures Clean(fold, ScrubSecrets(fold, text, secrets), s)
    decreases |secrets|
  {
    var q := secrets[0];
    assert 3 <= |s|;
    hide Clean, Scrubbable, Caseless, ReplaceAll, Matches;
    var next := if |q| < 3 then text else ReplaceAll(fold, text, q, PARTY_HIDDEN);
    if q == s {
      LiteralRemoves(fold, "", text, s, Party);
      assert "" + next == next;
      SecretsKeep(fold, next, secrets[1..], s);
    } else {
      SecretsRemove(fold, next, secrets[1..], s);
    }
  }

  lemma {:induction false} PatternsKeep(fold: Fold, text: string, patterns: seq<Pattern>, s: string)
    requires Caseless(fold) && Scrubbable(fold, s) && Clean(fold, text, s)
    ensures Clean(fold, ApplyAll(text, patterns), s)
    decreases |patterns|
  {
    hide Clean, Scrubbable, Caseless;
    if patterns != [] {
      var pieces := patterns[0](text);
      assert "" + Before(pieces) == text && "" + After(pieces) == After(pieces);
      PassKeeps(fold, "", pieces, s);
      PatternsKeep(fold, After(pieces), patterns[1..], s);
    }
  }

  /** Scrubbing is lasting: no later pass, whatever it matches, brings a scrubbable secret back. */
  lemma ScrubbingLasts(fold: Fold, text: string, secrets: seq<string>, labels: Pattern, inn: string,
                       leaks: seq<Pattern>, s: string)
    ensures Caseless(fold) && Scrubbable(fold, s) && s in secrets ==>
              Clean(fold, ScrubRoute(fold, text, secrets, labels, inn, leaks), s)
  {
    hide *;
    if Caseless(fold) && Scrubbable(fold, s) && s in secrets {
      var stripped := ScrubSecrets(fold, text, secrets);
      SecretsRemove(fold, text, secrets, s);
      PatternsKeep(fold, stripped, [labels], s);
      ApplyOne(stripped, labels);
      NumberKeeps(fold, After(labels(stripped)), inn, s);
      PatternsKeep(fold, ScrubNumber(After(labels(stripped)), inn), leaks, s);
      RouteIs(fold, text, secrets, labels, inn, leaks);
    }
  }

  lemma RouteIs(fold: Fold, text: string, secrets: seq<string>, labels: Pattern, inn: string, leaks: seq<Pattern>)
    ensures ScrubRoute(fold, text, secrets, labels, inn, leaks)
         == ApplyAll(ScrubNumber(After(labels(ScrubSecrets(fold, text, secrets))), inn), leaks)
  {
  }

  /** No occurrence of the client's tax number is left, whatever the leak patterns do. */
  lemma NumberRemoved(fold: Fold, text: string, secrets: seq<string>, labels: Pattern, inn: string, leaks: seq<Pattern>)
    requires Scrubbable(OWN_CASE, inn)
    ensures Clean(OWN_CASE, ScrubRoute(fold, text, secrets, labels, inn, leaks), inn)
  {
    var before := After(labels(ScrubSecrets(fold, text, secrets)));
    assert Caseless(OWN_CASE);
    assert inn != "" && HIDDEN == Hidden.Text();
    hide Clean, Scrubbable, Caseless, ReplaceAll, Matches, ScrubSecrets, OWN_CASE, HIDDEN, After, Before;
    LiteralRemoves(OWN_CASE, "", before, inn, Hidden);
    var after := ScrubNumber(before, inn);
    assert "" + after == after;
    PatternsKeep(OWN_CASE, after, leaks, inn);
    RouteIs(fold, text, secrets, labels, inn, leaks);
  }

  /** What one of the patterns removes stays away through the others. */
  lemma {:induction false} PatternsRemove(fold: Fold, text: string, patterns: seq<Pattern>, n: nat, x: string)
    requires Caseless(fold) && Scrubbable(fold, x) && n < |patterns| && Removes(fold, patterns[n], x)
    ensures Clean(fold, ApplyAll(text, patterns), x)
    decreases |patterns|
  {
    hide *;
    ApplyFirst(text, patterns);
    var next := After(patterns[0](text));
    if n == 0 {
      RemovesIt(fold, patterns[0], x, text);
      PatternsKeep(fold, next, patterns[1..], x);
    } else {
      PatternsRemove(fold, next, patterns[1..], n - 1, x);
    }
  }

  lemma ApplyFirst(text: string, patterns: seq<Pattern>)
    requires patterns != []
    ensures ApplyAll(text, patterns) == ApplyAll(After(patterns[0](text)), patterns[1..])
  {
  }

  lemma RemovesIt(fold: Fold, pattern: Pattern, x: string, text: string)
    requires Removes(fold, pattern, x)
    ensures Clean(fold, After(pattern(text)), x)
  {
    hide Clean, After, Before, Ordinary;
  }

  /** What the label pattern or a leak pattern removes is not in the route. */
  lemma LeaksRemoved(fold: Fold, text: string, secrets: seq<string>, labels: Pattern, inn: string, leaks: seq<Pattern>,
                     x: string)
    requires Caseless(fold) && Scrubbable(fold, x)
    requires Removes(fold, labels, x) || exists n :: 0 <= n < |leaks| && Removes(fold, leaks[n], x)
    ensures Clean(fold, ScrubRoute(fold, text, secrets, labels, inn, leaks), x)
  {
    hide *;
    var stripped := After(labels(ScrubSecrets(fold, text, secrets)));
    RouteIs(fold, text, secrets, labels, inn, leaks);
    if Removes(fold, labels, x) {
      RemovesIt(fold, labels, x, ScrubSecrets(fold, text, secrets));
      NumberKeeps(fold, stripped, inn, x);
      PatternsKeep(fold, ScrubNumber(stripped, inn), leaks, x);
    } else {
      var n :| 0 <= n < |leaks| && Removes(fold, leaks[n], x);
      PatternsRemove(fold, ScrubNumber(stripped, inn), leaks, n, x);
    }
  }

  lemma NumberKeeps(fold: Fold, text: string, inn: string, s: string)
    requires Caseless(fold) && Scrubbable(fold, s) && Clean(fold, text, s)
    ensures Clean(fold, ScrubNumber(text, inn), s)
  {
    hide Clean, Scrubbable, Caseless, ReplaceAll;
    if inn != "" {
      assert "" + text == text && "" + ScrubNumber(text, inn) == ScrubNumber(text, inn);
      LiteralKeeps(fold, OWN_CASE, "", text, inn, Hidden, s);
    }
  }

  lemma ApplyOne(text: string, p: Pattern)
    ensures ApplyAll(text, [p]) == After(p(text))
  {
    assert [p][1..] == [];
  }

  /** The passes as they are made: one text, reassigned. */
  method ScrubPartyNames(fold: Fold, text: string, secrets: seq<string>, labels: Pattern) returns (out: string)
    ensures out == After(labels(ScrubSecrets(fold, text, secrets)))
    ensures Caseless(fold) ==> forall s :: s in secrets && Scrubbable(fold, s) ==> Clean(fold, out, s)
  {
    hide Clean, Scrubbable, Caseless, ReplaceAll, Ordinary, Before, After;
    out := text;
    for n := 0 to |secrets|
      invariant ScrubSecrets(fold, out, secrets[n..]) == ScrubSecrets(fold, text, secrets)
    {
      assert secrets[n..][1..] == secrets[n + 1..];
      var s := secrets[n];
      if |s| < 3 {
        continue;
      }
      out := ReplaceAll(fold, out, s, PARTY_HIDDEN);
    }
    ghost var stripped := out;
    out := After(labels(out));
    forall s | s in secrets && Scrubbable(fold, s) && Caseless(fold)
      ensures Clean(fold, out, s)
    {
      SecretsRemove(fold, text, secrets, s);
      PatternsKeep(fold, stripped, [labels], s);
      ApplyOne(stripped, labels);
    }
  }

  method SanitizeRoute(fold: Fold, text: string, secrets: seq<string>, labels: Pattern, inn: string,
                       leaks: seq<Pattern>)
    returns (route: string)
    ensures route == ScrubRoute(fold, text, secrets, labels, inn, leaks)
    ensures Caseless(fold) ==> forall s :: s in secrets && Scrubbable(fold, s) ==> Clean(fold, route, s)
    ensures Scrubbable(OWN_CASE, inn) ==> Clean(OWN_CASE, route, inn)
    ensures Caseless(fold) ==>
              forall n, x :: 0 <= n < |leaks| && Scrubbable(fold, x) && Removes(fold, leaks[n], x) ==>
                  Clean(fold, route, x)
  {
    route := ScrubPartyNames(fold, text, secrets, labels);
    hide Clean, Scrubbable, Caseless, ReplaceAll, ScrubSecrets, OWN_CASE, Removes, Before, After, Ordinary;
    if inn != "" {
      route := ReplaceAll(OWN_CASE, route, inn, HIDDEN);
    }
    hide ScrubNumber, ScrubRoute;
    for n := 0 to |leaks|
      invariant ApplyAll(route, leaks[n..]) == ScrubRoute(fold, text, secrets, labels, inn, leaks)
    {
      assert leaks[n..][1..] == leaks[n + 1..];
      route := After(leaks[n](route));
    }
    forall s | s in secrets && Scrubbable(fold, s) && Caseless(fold)
      ensures Clean(fold, route, s)
    {
      ScrubbingLasts(fold, text, secrets, labels, inn, leaks, s);
    }
    if Scrubbable(OWN_CASE, inn) {
      NumberRemoved(fold, text, secrets, labels, inn, leaks);
    }
    forall n, x | 0 <= n < |leaks| && Scrubbable(fold, x) && Removes(fold, leaks[n], x) && Caseless(fold)
      ensures Clean(fold, route, x)
    {
      LeaksRemoved(fold, text, secrets, labels, inn, leaks, x);
    }
  }

  /** A body written by staff goes through the party and leak passes and is then trimmed and cut to 4000 characters. */
  lemma BodyOverrideLasts(fold: Fold, text: string, secrets: seq<string>, labels: Pattern, leaks: seq<Pattern>,
                          s: string)
    ensures Caseless(fold) && Scrubbable(fold, s) && s in secrets ==>
              var t := ScrubRoute(fold, text, secrets, labels, "", leaks);
              forall from, to :: 0 <= from <= to <= |t| ==> Clean(fold, t[from..to], s)
  {
    hide *;
    var t := ScrubRoute(fold, text, secrets, labels, "", leaks);
    ScrubbingLasts(fold, text, secrets, labels, "", leaks, s);
    if Caseless(fold) && Scrubbable(fold, s) && s in secrets {
      forall from, to | 0 <= from <= to <= |t|
        ensures Clean(fold, t[from..to], s)
      {
        assert t == t[..from] + t[from..to] + t[to..];
        CleanPart(fold, t[..from], t[from..to], t[to..], s);
      }
    }
  }

  function KeepAll(text: string): (pieces: seq<Piece>)
    ensures Before(pieces) == text && Ordinary(pieces)
  {
    assert [Keep(text)][1..] == [];
    [Keep(text)]
  }

  const NO_MATCH: Pattern := (text: string) => KeepAll(text)

  lemma NoMatchChangesNothing(text: string)
    ensures After(NO_MATCH(text)) == text
  {
    assert [Keep(text)][1..] == [];
    assert After(KeepAll(text)) == text + "";
  }

  /**
   For a secret of at least three characters with no separator in it, scrubbing holds for every text and every other
   secret exactly when the replacements do not spell the secret themselves.
   */
  lemma LastingExactly(fold: Fold, s: string)
    requires Caseless(fold) && 3 <= |s| && forall i :: 0 <= i < |s| ==> !IsSeparator(s[i])
    ensures Scrubbable(fold, s) <==>
            forall text, secrets, inn | s in secrets ::
              Clean(fold, ScrubRoute(fold, text, secrets, NO_MATCH, inn, []), s)
  {
    hide Clean, Matches, ScrubRoute;
    if Scrubbable(fold, s) {
      forall text, secrets, inn | s in secrets
        ensures Clean(fold, ScrubRoute(fold, text, secrets, NO_MATCH, inn, []), s)
      {
        ScrubbingLasts(fold, text, secrets, NO_MATCH, inn, [], s);
      }
    } else if !Clean(fold, PARTY_TEXT, s) {
      PartyTextSurvives(fold, s);
      assert s in [s] && !Clean(fold, ScrubRoute(fold, s, [s], NO_MATCH, "", []), s);
    } else {
      HiddenTextAppears(fold, s);
      assert s in [s] && !Clean(fold, ScrubRoute(fold, "0", [s], NO_MATCH, "0", []), s);
    }
  }

  lemma ReplaceAllOfItself(fold: Fold, s: string, replacement: string)
    requires s != []
    ensures ReplaceAll(fold, s, s, replacement) == replacement
  {
    assert Matches(fold, s, 0, s);
    assert s[|s|..] == "";
    assert replacement + "" == replacement;
  }

  lemma SpelledInside(fold: Fold, inside: string, s: string)
    requires !Clean(fold, inside, s)
    ensures !Clean(fold, "[" + inside + "]", s)
  {
    if Clean(fold, "[" + inside + "]", s) {
      CleanPart(fold, "[", inside, "]", s);
    }
  }

  lemma PartyTextSurvives(fold: Fold, s: string)
    requires 3 <= |s| && !Clean(fold, PARTY_TEXT, s)
    ensures !Clean(fold, ScrubRoute(fold, s, [s], NO_MATCH, "", []), s)
  {
    SpelledInside(fold, PARTY_TEXT, s);
    hide Clean, Matches;
    ReplaceAllOfItself(fold, s, PARTY_HIDDEN);
    assert [s][1..] == [];
    assert ScrubSecrets(fold, s, [s]) == ScrubSecrets(fold, PARTY_HIDDEN, []);
    NoMatchChangesNothing(PARTY_HIDDEN);
  }

  lemma HiddenTextAppears(fold: Fold, s: string)
    requires 3 <= |s| && !Clean(fold, HIDDEN_TEXT, s)
    ensures !Clean(fold, ScrubRoute(fold, "0", [s], NO_MATCH, "0", []), s)
  {
    SpelledInside(fold, HIDDEN_TEXT, s);
    hide Clean, Matches;
    assert [s][1..] == [];
    assert ScrubSecrets(fold, "0", [s]) == ScrubSecrets(fold, "0", []);
    NoMatchChangesNothing("0");
    ReplaceAllOfItself(OWN_CASE, "0", HIDDEN);
  }

  // --- the cargo text

  /** The cargo field: the passes of the route, and then the factory's name, unless suppliers may have it. */
  function ScrubCargo(fold: Fold, text: string, secrets: seq<string>, labels: Pattern, inn: string, leaks: seq<Pattern>,
                      factory: CargoPattern): string {
    After(factory(ScrubRoute(fold, text, secrets, labels, inn, leaks)))
  }

  method SanitizeCargo(fold: Fold, text: string, secrets: seq<string>, labels: Pattern, inn: string,
                       leaks: seq<Pattern>, factory: CargoPattern, allowFactory: bool)
    returns (cargo: string)
    ensures cargo == if allowFactory then ScrubRoute(fold, text, secrets, labels, inn, leaks)
                     else ScrubCargo(fold, text, secrets, labels, inn, leaks, factory)
    ensures Caseless(fold) ==>
              forall s :: s in secrets && Scrubbable(fold, s) && (allowFactory || FactorySafe(fold, s)) ==>
                Clean(fold, cargo, s)
    ensures Scrubbable(OWN_CASE, inn) && (allowFactory || FactorySafe(OWN_CASE, inn)) ==> Clean(OWN_CASE, cargo, inn)
  {
    assert Caseless(OWN_CASE);
    hide Clean, Scrubbable, Caseless, FactorySafe, ScrubRoute, OWN_CASE, Removes;
    cargo := SanitizeRoute(fold, text, secrets, labels, inn, leaks);
    ghost var route := cargo;
    if !allowFactory {
      cargo := After(factory(cargo));
      forall s | s in secrets && Scrubbable(fold, s) && FactorySafe(fold, s) && Caseless(fold)
        ensures Clean(fold, cargo, s)
      {
        FactoryPassKeeps(fold, route, factory, s);
      }
      if Scrubbable(OWN_CASE, inn) && FactorySafe(OWN_CASE, inn) {
        FactoryPassKeeps(OWN_CASE, route, factory, inn);
      }
    }
  }

  lemma FactoryPassKeeps(fold: Fold, text: string, factory: CargoPattern, s: string)
    requires Caseless(fold) && Scrubbable(fold, s) && FactorySafe(fold, s) && Clean(fold, text, s)
    ensures Clean(fold, After(factory(text)), s)
  {
    var pieces := factory(text);
    assert Before(pieces) == text;
    hide Clean, Scrubbable, Caseless, FactorySafe, Before, After, Ordinary;
    assert "" + Before(pieces) == Before(pieces) && "" + After(pieces) == After(pieces);
    PassKeeps(fold, "", pieces, s);
  }

  lemma FactoryPieces(front: string, dropped: string)
    ensures var pieces := [Keep(front), Cut("", dropped, Factory)];
            Before(pieces) == front + dropped && After(pieces) == front + FACTORY_HIDDEN
  {
    hide FACTORY_HIDDEN;
    var cut := Cut("", dropped, Factory);
    assert [Keep(front), cut][1..] == [cut] && [cut][1..] == [];
    assert Before([cut]) == "" + dropped + "" && After([cut]) == "" + FACTORY_HIDDEN + "";
  }

  /** What the factory's pattern matches begins with one of its words and has three more characters at least. */
  predicate NamesFactory(fold: Fold, m: string) {
    exists w :: w in FACTORY_WORDS && |w| + 3 <= |m| && Matches(fold, m, 0, w)
  }

  /** The whole of every such match gives way. */
  ghost predicate OfFactory(fold: Fold, factory: CargoPattern) {
    forall text, p :: p in factory(text) && p.Cut? && p.replacement.Factory? ==>
        p.kept == "" && NamesFactory(fold, p.dropped)
  }

  /** No letter of the one alphabet, nor a digit or a sign, is another case of a letter of the other. */
  ghost predicate TwoAlphabets(fold: Fold) {
    forall c, d :: c in PLANT && (d in FACTORY_WORD || d in REQUEST_TEXT) ==> fold(c) != fold(d)
  }

  /** Matches the plant at the end of a text. */
  function FactoryAtEnd(text: string): (pieces: seq<Piece>)
    ensures Before(pieces) == text
  {
    var n := |text| - |PLANT|;
    if 0 <= n && text[n..] == PLANT then
      FactoryPieces(text[..n], PLANT);
      [Keep(text[..n]), Cut("", PLANT, Factory)]
    else
      assert Before([Keep(text)]) == text + "";
      [Keep(text)]
  }

  lemma PlantAtEnd(text: string)
    ensures After(FactoryAtEnd(text + PLANT)) == text + FACTORY_HIDDEN
  {
    FactoryPieces(text, PLANT);
    hide PLANT, FACTORY_HIDDEN, Before, After;
    assert (text + PLANT)[|text|..] == PLANT && (text + PLANT)[..|text|] == text;
  }

  lemma PlantNamesFactory(fold: Fold)
    ensures OfFactory(fold, FACTORY_AT_END)
  {
    hide *;
    PlantIsFactory(fold);
    forall text, p | p in FACTORY_AT_END(text) && p.Cut? && p.replacement.Factory?
      ensures p.kept == "" && NamesFactory(fold, p.dropped)
    {
      CutAtEnd(text, p);
    }
    OfFactoryIs(fold, FACTORY_AT_END);
  }

  lemma OfFactoryIs(fold: Fold, factory: CargoPattern)
    requires forall text, p :: p in factory(text) && p.Cut? && p.replacement.Factory? ==>
               p.kept == "" && NamesFactory(fold, p.dropped)
    ensures OfFactory(fold, factory)
  {
    hide NamesFactory;
  }

  lemma PlantIsFactory(fold: Fold)
    ensures NamesFactory(fold, PLANT)
  {
    var w := FACTORY_WORDS[2];
    assert w in FACTORY_WORDS && |w| + 3 <= |PLANT| && Matches(fold, PLANT, 0, w);
  }

  lemma CutAtEnd(text: string, p: Piece)
    requires p in FACTORY_AT_END(text) && p.Cut?
    ensures p == Cut("", PLANT, Factory)
  {
    hide PLANT, Before;
  }

  const FACTORY_AT_END: CargoPattern := (text: string) => FactoryAtEnd(text)

  /**
   For a secret that the route is scrubbed of, scrubbing the cargo text lasts, for every text, every list of secrets and
   whatever the factory's pattern matches, exactly when the factory's text cannot spell the secret or its end.
   */
  lemma CargoLastingExactly(fold: Fold, s: string)
    requires Caseless(fold) && TwoAlphabets(fold) && Scrubbable(fold, s)
    ensures FactorySafe(fold, s) <==>
            forall text, secrets, inn, factory: CargoPattern | s in secrets && OfFactory(fold, factory) ::
              Clean(fold, ScrubCargo(fold, text, secrets, NO_MATCH, inn, [], factory), s)
  {
    hide *;
    if FactorySafe(fold, s) {
      forall text, secrets, inn, factory: CargoPattern | s in secrets && OfFactory(fold, factory)
        ensures Clean(fold, ScrubCargo(fold, text, secrets, NO_MATCH, inn, [], factory), s)
      {
        CargoLasts(fold, text, secrets, NO_MATCH, inn, [], factory, s);
      }
    } else {
      var text := CargoSpells(fold, s);
      PlantNamesFactory(fold);
      assert s in [s];
      assert !Clean(fold, ScrubCargo(fold, text, [s], NO_MATCH, "", [], FACTORY_AT_END), s);
    }
  }

  /** Scrubbing the cargo text lasts for a secret that is safe from the factory's text. */
  lemma CargoLasts(fold: Fold, text: string, secrets: seq<string>, labels: Pattern, inn: string, leaks: seq<Pattern>,
                   factory: CargoPattern, s: string)
    requires Caseless(fold) && Scrubbable(fold, s) && FactorySafe(fold, s) && s in secrets
    ensures Clean(fold, ScrubCargo(fold, text, secrets, labels, inn, leaks, factory), s)
  {
    hide Clean, Scrubbable, Caseless, FactorySafe, ScrubRoute, After;
    ScrubbingLasts(fold, text, secrets, labels, inn, leaks, s);
    FactoryPassKeeps(fold, ScrubRoute(fold, text, secrets, labels, inn, leaks), factory, s);
  }

  lemma CargoSpells(fold: Fold, s: string) returns (text: string)
    requires TwoAlphabets(fold) && Scrubbable(fold, s) && !FactorySafe(fold, s)
    ensures !Clean(fold, ScrubCargo(fold, text, [s], NO_MATCH, "", [], FACTORY_AT_END), s)
  {
    hide *;
    ScrubbableNonempty(fold, s);
    var front := CompletedByFactory(fold, s);
    text := front + PLANT;
    CleanBeforePlant(fold, front, s);
    UntouchedRoute(fold, text, s);
    CargoAtEnd(fold, text, [s]);
    PlantAtEnd(front);
  }

  lemma CargoAtEnd(fold: Fold, text: string, secrets: seq<string>)
    ensures ScrubCargo(fold, text, secrets, NO_MATCH, "", [], FACTORY_AT_END)
         == After(FactoryAtEnd(ScrubRoute(fold, text, secrets, NO_MATCH, "", [])))
  {
    hide ScrubRoute, Before, After, FactoryAtEnd;
  }

  /** A secret that is not safe ends in a letter that the plant does not have, so it cannot end there. */
  lemma CleanBeforePlant(fold: Fold, front: string, s: string)
    requires TwoAlphabets(fold) && 3 <= |s| && !FactorySafe(fold, s) && |front| < |s|
    ensures Clean(fold, front + PLANT, s)
  {
    var d := LastLetter(fold, s);
    hide FactorySafe, FACTORY_WORD, REQUEST_TEXT, PLANT;
    var text := front + PLANT;
    forall at: nat | at <= |text|
      ensures !Matches(fold, text, at, s)
    {
      if Matches(fold, text, at, s) {
        var c := EndOfMatch(fold, front, PLANT, at, s);
      }
    }
  }

  /** A match that is longer than the front ends behind it. */
  lemma EndOfMatch(fold: Fold, front: string, later: string, at: nat, s: string) returns (c: char)
    requires |front| < |s| && Matches(fold, front + later, at, s)
    ensures c in later && fold(c) == fold(s[|s| - 1])
  {
    var i := |s| - 1;
    c := (front + later)[at + i];
    assert c == later[at + i - |front|];
  }

  lemma LastLetter(fold: Fold, s: string) returns (d: char)
    requires 3 <= |s| && !FactorySafe(fold, s)
    ensures (d in FACTORY_WORD || d in REQUEST_TEXT) && fold(d) == fold(s[|s| - 1])
  {
    hide FACTORY_WORD, REQUEST_TEXT;
    if !Clean(fold, FACTORY_WORD, s) {
      d := LastOfMatch(fold, FACTORY_WORD, s);
    } else if !Clean(fold, REQUEST_TEXT, s) {
      d := LastOfMatch(fold, REQUEST_TEXT, s);
    } else {
      var k :| 0 < k <= |s| && k <= |FACTORY_WORD| && Matches(fold, FACTORY_WORD, 0, Ending(s, k));
      d := FACTORY_WORD[k - 1];
      assert fold(FACTORY_WORD[0 + (k - 1)]) == fold(Ending(s, k)[k - 1]);
    }
  }

  lemma LastOfMatch(fold: Fold, text: string, s: string) returns (d: char)
    requires s != [] && !Clean(fold, text, s)
    ensures d in text && fold(d) == fold(s[|s| - 1])
  {
    var at :| 0 <= at <= |text| && Matches(fold, text, at, s);
    d := text[at + (|s| - 1)];
  }

  /** A text shorter than the secret passes the route's scrubbing as it is. */
  lemma UntouchedRoute(fold: Fold, text: string, s: string)
    requires Clean(fold, text, s) && 3 <= |s|
    ensures ScrubRoute(fold, text, [s], NO_MATCH, "", []) == text
  {
    CleanUnchanged(fold, text, s, PARTY_HIDDEN);
    hide Clean;
    assert [s][1..] == [];
    assert ScrubSecrets(fold, text, [s]) == ScrubSecrets(fold, text, []);
    NoMatchChangesNothing(text);
  }

  lemma {:induction false} CleanUnchanged(fold: Fold, text: string, s: string, replacement: string)
    requires Clean(fold, text, s) && s != []
    ensures ReplaceAll(fold, text, s, replacement) == text
    decreases |text|
  {
    if |s| <= |text| {
      assert !Matches(fold, text, 0, s);
      assert text == [text[0]] + text[1..] + "";
      CleanPart(fold, [text[0]], text[1..], "", s);
      hide Clean, Matches;
      CleanUnchanged(fold, text[1..], s, replacement);
    }
  }

  /** A clean text behind which the factory's text spells a secret that is not safe from it. */
  lemma CompletedByFactory(fold: Fold, s: string) returns (text: string)
    requires 3 <= |s| && !FactorySafe(fold, s)
    ensures |text| < |s| && !Clean(fold, text + FACTORY_HIDDEN, s)
  {
    if !Clean(fold, FACTORY_WORD, s) || !Clean(fold, REQUEST_TEXT, s) {
      text := "";
      FactoryLayout("", "");
      hide FACTORY_WORD, REQUEST_TEXT, FACTORY_HIDDEN;
      var all := text + FACTORY_HIDDEN;
      assert all == "" + FACTORY_HIDDEN + "";
      if Clean(fold, all, s) {
        assert all == "" + FACTORY_WORD + ([':'] + (" " + ("[" + REQUEST_TEXT + "]")));
        CleanPart(fold, "", FACTORY_WORD, [':'] + (" " + ("[" + REQUEST_TEXT + "]")), s);
        assert all == (FACTORY_WORD + [':'] + " " + "[") + REQUEST_TEXT + "]";
        CleanPart(fold, FACTORY_WORD + [':'] + " " + "[", REQUEST_TEXT, "]", s);
      }
    } else {
      var k :| 0 < k <= |s| && k <= |FACTORY_WORD| && Matches(fold, FACTORY_WORD, 0, Ending(s, k));
      text := s[..|s| - k];
      SpelledByFactory(fold, text, s, k);
    }
  }

  lemma SpelledByFactory(fold: Fold, text: string, s: string, k: nat)
    requires 0 < k <= |s| && k <= |FACTORY_WORD| && text == s[..|s| - k] && Matches(fold, FACTORY_WORD, 0, Ending(s, k))
    ensures !Clean(fold, text + FACTORY_HIDDEN, s)
  {
    FactoryLayout(text, "");
    hide FACTORY_WORD, REQUEST_TEXT, FACTORY_HIDDEN, Clean;
    var later := [':'] + (" " + ("[" + REQUEST_TEXT + "]") + "");
    SpelledAcross(fold, text, FACTORY_WORD, later, s, k);
    assert text + FACTORY_HIDDEN == text + FACTORY_HIDDEN + "";
    assert text + FACTORY_HIDDEN == text + FACTORY_WORD + later;
  }

  lemma SpelledAcross(fold: Fold, text: string, word: string, later: string, s: string, k: nat)
    requires 0 < k <= |s| && k <= |word| && text == s[..|s| - k] && Matches(fold, word, 0, Ending(s, k))
    ensures !Clean(fold, text + word + later, s)
  {
    var all := text + word + later;
    forall i | 0 <= i < |s|
      ensures fold(all[i]) == fold(s[i])
    {
      if |text| <= i {
        assert all[i] == word[i - |text|];
        assert s[i] == Ending(s, k)[i - |text|] && fold(word[0 + (i - |text|)]) == fold(Ending(s, k)[i - |text|]);
      }
    }
    assert Matches(fold, all, 0, s);
  }

  /** A name that ends like the factory's word is not safe from it, although the route is scrubbed of it. */
  lemma FactoryPassRecreates(fold: Fold)
    requires Caseless(fold) && TwoAlphabets(fold) && Scrubbable(fold, "АО завод")
    ensures exists text, secrets, inn, factory: CargoPattern ::
              "АО завод" in secrets && OfFactory(fold, factory)
              && !Clean(fold, ScrubCargo(fold, text, secrets, NO_MATCH, inn, [], factory), "АО завод")
  {
    hide *;
    EndsLikeFactory(fold);
    CargoLastingExactly(fold, "АО завод");
  }

  /** For one: "АО plant:X-12" does not have the name, and where the plant gives way it does. */
  lemma PlantGivesWay(fold: Fold)
    ensures var pieces := [Keep("АО "), Cut("", PLANT, Factory)];
            Before(pieces) == "АО plant:X-12" && !Clean(fold, After(pieces), "АО завод")
  {
    FactoryPieces("АО ", PLANT);
    hide Clean, Before, After, FACTORY_HIDDEN;
    assert Ending("АО завод", 5) == FACTORY_WORD && "АО завод"[..3] == "АО ";
    SpelledByFactory(fold, "АО ", "АО завод", 5);
  }

  lemma EndsLikeFactory(fold: Fold)
    ensures !FactorySafe(fold, "АО завод")
  {
    hide Clean;
    assert Ending("АО завод", 5) == FACTORY_WORD;
    assert Matches(fold, FACTORY_WORD, 0, Ending("АО завод", 5));
  }
}
