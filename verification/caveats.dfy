/**
 The bounded list of caveats an answer may print (backend/app/contracts/actions.py).

 Which characters are white space and how case is folded are parameters: everything
 below holds for every choice of them.
 */
module Caveats {

  const MAX_CAVEATS: nat := 10
  const MAX_CAVEAT_LENGTH: nat := 500

  /** An element of the list a model supplied: a string, or anything else. */
  datatype Value = Text(text: string) | NotText

  datatype TextRules = TextRules(isSpace: char -> bool, foldCase: string -> string)

  // ---- stripping and comparing ----

  function StripLeft(r: TextRules, s: string): (t: string)
    ensures |t| <= |s|
    ensures t != [] ==> !r.isSpace(t[0])
  {
    if s != [] && r.isSpace(s[0]) then StripLeft(r, s[1..]) else s
  }

  function StripRight(r: TextRules, s: string): (t: string)
    ensures t <= s
    ensures t != [] ==> !r.isSpace(t[|t| - 1])
  {
    if s != [] && r.isSpace(s[|s| - 1]) then StripRight(r, s[..|s| - 1]) else s
  }

  function Strip(r: TextRules, s: string): (t: string)
  {
    StripRight(r, StripLeft(r, s))
  }

  /** Stripping leaves no white space at either end, so stripping again changes nothing. */
  lemma StripIdempotent(r: TextRules, s: string)
    ensures Strip(r, Strip(r, s)) == Strip(r, s)
  {
  }

  /** Every run of white space becomes one blank. */
  function CollapseSpaces(r: TextRules, s: string): string
    decreases |s|
  {
    if s == [] then []
    else if r.isSpace(s[0]) then " " + CollapseSpaces(r, StripLeft(r, s[1..]))
    else [s[0]] + CollapseSpaces(r, s[1..])
  }

  /** What two caveats are compared by. */
  function Key(r: TextRules, caveat: string): string
  {
    r.foldCase(CollapseSpaces(r, caveat))
  }

  lemma {:induction false} StripLeftDropsGap(r: TextRules, gap: string, tail: string)
    requires forall i :: 0 <= i < |gap| ==> r.isSpace(gap[i])
    requires tail != [] ==> !r.isSpace(tail[0])
    ensures StripLeft(r, gap + tail) == tail
  {
    if gap == [] {
      assert gap + tail == tail;
    } else {
      assert (gap + tail)[1..] == gap[1..] + tail;
      StripLeftDropsGap(r, gap[1..], tail);
    }
  }

  /** Caveats that differ only in how wide a run of white space is have the same key. */
  lemma {:induction false} KeyIgnoresSpacing(r: TextRules, head: string, gap: string, gap': string, tail: string)
    requires gap != [] && forall i :: 0 <= i < |gap| ==> r.isSpace(gap[i])
    requires gap' != [] && forall i :: 0 <= i < |gap'| ==> r.isSpace(gap'[i])
    requires tail != [] ==> !r.isSpace(tail[0])
    requires head != [] ==> !r.isSpace(head[|head| - 1])
    ensures Key(r, head + gap + tail) == Key(r, head + gap' + tail)
  {
    CollapseOneGap(r, gap, tail);
    CollapseOneGap(r, gap', tail);
    CollapseIgnoresWidth(r, head, gap + tail, gap' + tail);
    assert head + (gap + tail) == head + gap + tail && head + (gap' + tail) == head + gap' + tail;
  }

  lemma {:induction false} CollapseIgnoresWidth(r: TextRules, head: string, more: string, more': string)
    requires head != [] ==> !r.isSpace(head[|head| - 1])
    requires CollapseSpaces(r, more) == CollapseSpaces(r, more')
    ensures CollapseSpaces(r, head + more) == CollapseSpaces(r, head + more')
    decreases |head|
  {
    hide CollapseSpaces, StripLeft;
    if head == [] {
      assert head + more == more && head + more' == more';
    } else {
      CollapseHead(r, head, more);
      CollapseHead(r, head, more');
      if r.isSpace(head[0]) {
        StripLeftKeepsTail(r, head[1..], []);
        CollapseIgnoresWidth(r, StripLeft(r, head[1..]), more, more');
      } else {
        CollapseIgnoresWidth(r, head[1..], more, more');
      }
    }
  }

  lemma CollapseHead(r: TextRules, head: string, more: string)
    requires head != [] && !r.isSpace(head[|head| - 1])
    ensures CollapseSpaces(r, head + more) ==
      if r.isSpace(head[0]) then " " + CollapseSpaces(r, StripLeft(r, head[1..]) + more) else [head[0]] + CollapseSpaces(r, head[1..] + more)
  {
    CollapseStep(r, head + more);
    hide CollapseSpaces, StripLeft;
    assert (head + more)[1..] == head[1..] + more;
    if r.isSpace(head[0]) {
      StripLeftKeepsTail(r, head[1..], more);
    }
  }

  lemma CollapseStep(r: TextRules, s: string)
    requires s != []
    ensures CollapseSpaces(r, s) ==
      if r.isSpace(s[0]) then " " + CollapseSpaces(r, StripLeft(r, s[1..])) else [s[0]] + CollapseSpaces(r, s[1..])
  {
  }

  lemma CollapseOneGap(r: TextRules, gap: string, tail: string)
    requires gap != [] && forall i :: 0 <= i < |gap| ==> r.isSpace(gap[i])
    requires tail != [] ==> !r.isSpace(tail[0])
    ensures CollapseSpaces(r, gap + tail) == " " + CollapseSpaces(r, tail)
  {
    assert (gap + tail)[1..] == gap[1..] + tail;
    StripLeftDropsGap(r, gap[1..], tail);
  }

  /** Stripping the front of a string that ends in a visible character never reaches what follows it. */
  lemma {:induction false} StripLeftKeepsTail(r: TextRules, s: string, tail: string)
    requires s != [] && !r.isSpace(s[|s| - 1])
    ensures StripLeft(r, s + tail) == StripLeft(r, s) + tail
    ensures StripLeft(r, s) != [] && !r.isSpace(StripLeft(r, s)[|StripLeft(r, s)| - 1])
  {
    if r.isSpace(s[0]) {
      assert (s + tail)[1..] == s[1..] + tail;
      StripLeftKeepsTail(r, s[1..], tail);
    }
  }

  // ---- what may be printed ----

  /** A caveat is printable when what is left after stripping is neither blank nor too long. */
  predicate Fits(r: TextRules, v: Value)
  {
    v.Text? && 0 < |Strip(r, v.text)| <= MAX_CAVEAT_LENGTH
  }

  /** The distinct keys of the printable values. */
  function FittingKeys(r: TextRules, vs: seq<Value>): set<string>
  {
    set i | 0 <= i < |vs| && Fits(r, vs[i]) :: Key(r, Strip(r, vs[i].text))
  }

  function Keys(r: TextRules, caveats: seq<string>): set<string>
  {
    set i | 0 <= i < |caveats| :: Key(r, caveats[i])
  }

  function AsValues(caveats: seq<string>): (vs: seq<Value>)
    ensures |vs| == |caveats|
  {
    seq(|caveats|, i requires 0 <= i < |caveats| => Text(caveats[i]))
  }

  /** The first printable value of each key, in order, with no limit on their number. */
  function Distinct(r: TextRules, vs: seq<Value>): (out: seq<string>)
  {
    if vs == [] then []
    else
      var prior := Distinct(r, vs[..|vs| - 1]);
      var v := vs[|vs| - 1];
      if Fits(r, v) && Key(r, Strip(r, v.text)) !in Keys(r, prior) then prior + [Strip(r, v.text)] else prior
  }

  function Normalize(r: TextRules, vs: seq<Value>): (out: seq<string>)
  {
    Capped(Distinct(r, vs))
  }

  function Capped(caveats: seq<string>): seq<string>
  {
    if |caveats| <= MAX_CAVEATS then caveats else caveats[..MAX_CAVEATS]
  }

  /** The program's loop. */
  method NormalizeCaveats(r: TextRules, values: seq<Value>) returns (accepted: seq<string>)
    ensures accepted == Normalize(r, values)
  {
    accepted := [];
    var seen: set<string> := {};
    var i := 0;
    while i < |values|
      invariant 0 <= i <= |values|
      invariant accepted == Distinct(r, values[..i]) && |accepted| < MAX_CAVEATS
      invariant seen == Keys(r, accepted)
    {
      var value := values[i];
      assert values[..i + 1][..i] == values[..i];
      i := i + 1;
      if !value.Text? {
        continue;
      }
      var caveat := Strip(r, value.text);
      if caveat == [] || |caveat| > MAX_CAVEAT_LENGTH {
        continue;
      }
      var fingerprint := Key(r, caveat);
      if fingerprint in seen {
        continue;
      }
      KeysSnoc(r, accepted, caveat);
      seen := seen + {fingerprint};
      accepted := accepted + [caveat];
      if |accepted| == MAX_CAVEATS {
        DistinctPrefix(r, values, i);
        return;
      }
    }
    assert values[..i] == values;
  }

  // ---- properties ----

  lemma KeysSnoc(r: TextRules, caveats: seq<string>, caveat: string)
    ensures Keys(r, caveats + [caveat]) == Keys(r, caveats) + {Key(r, caveat)}
  {
    var more := caveats + [caveat];
    assert forall k :: k in Keys(r, caveats) ==> k in Keys(r, more) by {
      forall k | k in Keys(r, caveats) ensures k in Keys(r, more) {
        var i :| 0 <= i < |caveats| && Key(r, caveats[i]) == k;
        assert Key(r, more[i]) == k;
      }
    }
    assert Key(r, more[|caveats|]) == Key(r, caveat);
  }

  /** Reading more values only ever appends. */
  lemma {:induction false} DistinctPrefix(r: TextRules, vs: seq<Value>, n: nat)
    requires n <= |vs|
    ensures Distinct(r, vs[..n]) <= Distinct(r, vs)
    decreases |vs|
  {
    if n == |vs| {
      assert vs[..n] == vs;
    } else {
      var front := vs[..|vs| - 1];
      assert front[..n] == vs[..n];
      DistinctPrefix(r, front, n);
    }
  }

  /** Every entry is its own stripped form, printable, with a key of its own. */
  ghost predicate Clean(r: TextRules, caveats: seq<string>)
  {
    && (forall i :: 0 <= i < |caveats| ==> Fits(r, Text(caveats[i])) && Strip(r, caveats[i]) == caveats[i])
    && (forall i, j :: 0 <= i < j < |caveats| ==> Key(r, caveats[i]) != Key(r, caveats[j]))
  }

  lemma CleanSnoc(r: TextRules, caveats: seq<string>, caveat: string)
    requires Clean(r, caveats)
    requires Fits(r, Text(caveat)) && Strip(r, caveat) == caveat && Key(r, caveat) !in Keys(r, caveats)
    ensures Clean(r, caveats + [caveat])
  {
    forall i | 0 <= i < |caveats| ensures Key(r, caveats[i]) != Key(r, caveat) {
      assert Key(r, caveats[i]) in Keys(r, caveats);
    }
  }

  /** The list before the cap holds exactly the keys of the printable values, each of them once. */
  lemma {:induction false} DistinctMeaning(r: TextRules, vs: seq<Value>)
    ensures Keys(r, Distinct(r, vs)) == FittingKeys(r, vs)
    ensures |Distinct(r, vs)| == |FittingKeys(r, vs)|
    ensures Clean(r, Distinct(r, vs))
  {
    if vs != [] {
      DistinctMeaning(r, vs[..|vs| - 1]);
      DistinctMeaningStep(r, vs[..|vs| - 1], vs[|vs| - 1]);
      assert vs == vs[..|vs| - 1] + [vs[|vs| - 1]];
    }
  }

  lemma DistinctMeaningStep(r: TextRules, front: seq<Value>, v: Value)
    requires Keys(r, Distinct(r, front)) == FittingKeys(r, front)
    requires |Distinct(r, front)| == |FittingKeys(r, front)|
    requires Clean(r, Distinct(r, front))
    ensures Keys(r, Distinct(r, front + [v])) == FittingKeys(r, front + [v])
    ensures |Distinct(r, front + [v])| == |FittingKeys(r, front + [v])|
    ensures Clean(r, Distinct(r, front + [v]))
  {
    hide Strip, Key, Distinct, Clean, Keys, FittingKeys;
    DistinctSnoc(r, front, v);
    FittingKeysSnoc(r, front, v);
    var prior := Distinct(r, front);
    if !Fits(r, v) || Key(r, Strip(r, v.text)) in Keys(r, prior) {
      assert FittingKeys(r, front + [v]) == FittingKeys(r, front);
    } else {
      var caveat := Strip(r, v.text);
      FitsStripped(r, v);
      KeysSnoc(r, prior, caveat);
      CleanSnoc(r, prior, caveat);
    }
  }

  lemma DistinctSnoc(r: TextRules, front: seq<Value>, v: Value)
    ensures Distinct(r, front + [v]) ==
      if Fits(r, v) && Key(r, Strip(r, v.text)) !in Keys(r, Distinct(r, front)) then Distinct(r, front) + [Strip(r, v.text)]
      else Distinct(r, front)
  {
    hide Key, Strip, Fits, Keys;
    assert (front + [v])[..|front|] == front;
  }

  lemma FitsStripped(r: TextRules, v: Value)
    requires Fits(r, v)
    ensures Fits(r, Text(Strip(r, v.text))) && Strip(r, Strip(r, v.text)) == Strip(r, v.text)
  {
    StripIdempotent(r, v.text);
    hide Strip;
  }

  lemma FittingKeysSnoc(r: TextRules, vs: seq<Value>, v: Value)
    ensures FittingKeys(r, vs + [v]) == FittingKeys(r, vs) + if Fits(r, v) then {Key(r, Strip(r, v.text))} else {}
  {
    var more := vs + [v];
    forall k | k in FittingKeys(r, vs) ensures k in FittingKeys(r, more) {
      var i :| 0 <= i < |vs| && Fits(r, vs[i]) && Key(r, Strip(r, vs[i].text)) == k;
      assert Fits(r, more[i]) && Key(r, Strip(r, more[i].text)) == k;
    }
    if Fits(r, v) {
      assert Key(r, Strip(r, more[|vs|].text)) in FittingKeys(r, more);
    }
  }

  /** The printed list is bounded, stripped, within length, and free of repeated keys. */
  lemma NormalizeBounded(r: TextRules, vs: seq<Value>)
    ensures |Normalize(r, vs)| <= MAX_CAVEATS && Clean(r, Normalize(r, vs))
  {
    DistinctMeaning(r, vs);
  }

  /** A list that is already stripped, printable and without repeated keys passes through unchanged. */
  lemma {:induction false} DistinctOfClean(r: TextRules, caveats: seq<string>)
    requires Clean(r, caveats)
    ensures Distinct(r, AsValues(caveats)) == caveats
  {
    if caveats != [] {
      var n := |caveats| - 1;
      assert AsValues(caveats)[..n] == AsValues(caveats[..n]);
      DistinctOfClean(r, caveats[..n]);
      assert caveats == caveats[..n] + [caveats[n]];
    }
  }

  lemma NormalizeIdempotent(r: TextRules, vs: seq<Value>)
    ensures Normalize(r, AsValues(Normalize(r, vs))) == Normalize(r, vs)
  {
    NormalizeBounded(r, vs);
    DistinctOfClean(r, Normalize(r, vs));
  }

  /** Normalizing already normalized caveats followed by more keeps the first ones as a prefix. */
  lemma StatedStayFirst(r: TextRules, stated: seq<string>, more: seq<string>)
    requires Normalize(r, AsValues(stated)) == stated
    ensures stated <= Normalize(r, AsValues(stated + more))
  {
    var vs := AsValues(stated + more);
    assert vs[..|stated|] == AsValues(stated);
    NormalizeBounded(r, AsValues(stated));
    DistinctOfClean(r, stated);
    DistinctPrefix(r, vs, |stated|);
  }

  /**
   Exactly which values end up printed: a printable value appears (itself or an earlier one
   with its key) if and only if fewer than ten distinct printable caveats stand before it, or
   one of those first ten has its key.
   */
  lemma DisclosedIff(r: TextRules, vs: seq<Value>, n: nat)
    requires n < |vs| && Fits(r, vs[n])
    ensures var key := Key(r, Strip(r, vs[n].text));
      key in Keys(r, Normalize(r, vs)) <==>
      |FittingKeys(r, vs[..n])| < MAX_CAVEATS || key in Keys(r, Normalize(r, vs[..n]))
  {
    var key := Key(r, Strip(r, vs[n].text));
    var before, upTo, all := Distinct(r, vs[..n]), Distinct(r, vs[..n + 1]), Distinct(r, vs);
    assert vs[..n + 1][..n] == vs[..n];
    DistinctMeaning(r, vs[..n]);
    DistinctPrefix(r, vs, n + 1);
    DistinctPrefix(r, vs, n);
    if |before| < MAX_CAVEATS {
      assert upTo <= Normalize(r, vs);
      if key in Keys(r, before) {
        var i :| 0 <= i < |before| && Key(r, before[i]) == key;
        assert Key(r, Normalize(r, vs)[i]) == key;
      } else {
        assert Key(r, Normalize(r, vs)[|before|]) == key;
      }
    } else {
      assert Normalize(r, vs) == all[..MAX_CAVEATS] == before[..MAX_CAVEATS] == Normalize(r, vs[..n]);
    }
  }

  /** A value that is new and within the first ten is printed as it stands, stripped. */
  lemma NewCaveatPrinted(r: TextRules, vs: seq<Value>, n: nat)
    requires n < |vs| && Fits(r, vs[n])
    requires |FittingKeys(r, vs[..n])| < MAX_CAVEATS
    requires Key(r, Strip(r, vs[n].text)) !in FittingKeys(r, vs[..n])
    ensures Strip(r, vs[n].text) in Normalize(r, vs)
  {
    assert vs[..n + 1][..n] == vs[..n];
    DistinctMeaning(r, vs[..n]);
    DistinctPrefix(r, vs, n + 1);
    assert Normalize(r, vs)[|Distinct(r, vs[..n])|] == Strip(r, vs[n].text);
  }

  /** A value that does not fit is as good as absent. */
  lemma {:induction false} UnfitDropped(r: TextRules, front: seq<Value>, v: Value, back: seq<Value>)
    requires !Fits(r, v)
    ensures Distinct(r, front + [v] + back) == Distinct(r, front + back)
    decreases |back|
  {
    if back == [] {
      assert front + [v] + back == front + [v] && front + back == front;
      assert (front + [v])[..|front|] == front;
    } else {
      var n := |back| - 1;
      assert (front + [v] + back)[..|front| + 1 + n] == front + [v] + back[..n];
      assert (front + back)[..|front| + n] == front + back[..n];
      UnfitDropped(r, front, v, back[..n]);
    }
  }

  predicate AllSpace(r: TextRules, s: string)
  {
    forall i :: 0 <= i < |s| ==> r.isSpace(s[i])
  }

  /** Stripping takes white space off both ends, all of it and nothing else. */
  lemma StripMeaning(r: TextRules, s: string)
    ensures var t := Strip(r, s);
      && (t != [] ==> !r.isSpace(t[0]) && !r.isSpace(t[|t| - 1]))
      && exists before, after :: s == before + t + after && AllSpace(r, before) && AllSpace(r, after)
  {
    var left := StripLeft(r, s);
    var before := LeftPart(r, s);
    var after := RightPart(r, left);
    var t := Strip(r, s);
    assert s == before + t + after;
    if t != [] {
      assert t[0] == left[0];
    }
  }

  lemma {:induction false} LeftPart(r: TextRules, s: string) returns (before: string)
    ensures s == before + StripLeft(r, s) && AllSpace(r, before)
  {
    if s != [] && r.isSpace(s[0]) {
      var rest := LeftPart(r, s[1..]);
      before := [s[0]] + rest;
    } else {
      before := [];
    }
  }

  lemma {:induction false} RightPart(r: TextRules, s: string) returns (after: string)
    ensures s == StripRight(r, s) + after && AllSpace(r, after)
  {
    if s != [] && r.isSpace(s[|s| - 1]) {
      var rest := RightPart(r, s[..|s| - 1]);
      after := rest + [s[|s| - 1]];
    } else {
      after := [];
    }
  }

  /** White space stands only as single blanks. */
  predicate SingleBlanks(r: TextRules, s: string)
  {
    forall i :: 0 <= i < |s| && r.isSpace(s[i]) ==> s[i] == ' ' && (i + 1 < |s| ==> !r.isSpace(s[i + 1]))
  }

  /** Such a caveat is compared by its own text with case folded: so any two are duplicates exactly when their folded texts agree. */
  lemma {:induction false} PlainKey(r: TextRules, s: string)
    requires SingleBlanks(r, s)
    ensures Key(r, s) == r.foldCase(s)
  {
    CollapseKeeps(r, s);
  }

  lemma {:induction false} CollapseKeeps(r: TextRules, s: string)
    requires SingleBlanks(r, s)
    ensures CollapseSpaces(r, s) == s
    decreases |s|
  {
    if s != [] {
      assert forall i :: 0 <= i < |s[1..]| ==> s[1..][i] == s[i + 1];
      CollapseKeeps(r, s[1..]);
      assert s == [s[0]] + s[1..];
    }
  }
}
