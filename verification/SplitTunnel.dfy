/**
  The edge-triggered synchroniser of per-app routing: the interface pumps its
  wishes whenever a snapshot of the backend arrives, and sends a command only
  when a fingerprint of them has changed.
 */
module SplitTunnel {
  import opened Sequences
  import opened StringOrder
  import opened Wrappers

  datatype Command = ApplySplit(mode: string, apps: seq<string>) | ClearSplit

  /** What one pump sees: the preferences, and whether a tunnel's routes exist. */
  datatype Wish = Wish(enabled: bool, mode: string, apps: seq<string>, connected: bool, torRoute: bool) {
    predicate Live() { connected || torRoute }
    predicate Wanted() { enabled && Live() }
  }

  // ---- fingerprint ---------------------------------------------------------

  /** `join(",")` */
  function Join(names: seq<string>): string {
    if names == [] then ""
    else if |names| == 1 then names[0]
    else names[0] + "," + Join(names[1..])
  }

  function BoolText(b: bool): string {
    if b then "true" else "false"
  }

  function Fingerprint(f: Wish): string {
    BoolText(f.enabled) + "|" + f.mode + "|" + Join(Sort(f.apps))
  }

  ghost predicate CleanNames(names: seq<string>) {
    forall i :: 0 <= i < |names| ==> names[i] != "" && ',' !in names[i]
  }

  ghost predicate CleanWish(f: Wish) {
    CleanNames(f.apps) && '|' !in f.mode
  }

  lemma SplitAt(a: string, sep: char, x: string, b: string, y: string)
    requires sep !in a && sep !in b
    requires a + [sep] + x == b + [sep] + y
    ensures a == b && x == y
  {
    var s := a + [sep] + x;
    assert s[|a|] == sep && s[|b|] == sep;
    assert forall i :: 0 <= i < |a| ==> s[i] == a[i];
    assert forall i :: 0 <= i < |b| ==> s[i] == b[i];
    assert |a| == |b|;
    assert a == s[..|a|] && b == s[..|b|];
    assert x == s[|a| + 1..] && y == s[|b| + 1..];
  }

  lemma JoinShape(names: seq<string>)
    requires CleanNames(names)
    ensures ',' in Join(names) <==> |names| > 1
    ensures Join(names) == "" <==> names == []
  {
    if |names| > 1 {
      assert Join(names)[|names[0]|] == ',';
    } else if |names| == 1 {
      assert names[0] != "" && ',' !in names[0];
    }
  }

  lemma {:induction false} JoinInjective(a: seq<string>, b: seq<string>)
    requires CleanNames(a) && CleanNames(b)
    ensures Join(a) == Join(b) <==> a == b
  {
    JoinShape(a);
    JoinShape(b);
    if Join(a) == Join(b) && |a| > 1 {
      assert Join(a) == a[0] + [','] + Join(a[1..]) && Join(b) == b[0] + [','] + Join(b[1..]);
      SplitAt(a[0], ',', Join(a[1..]), b[0], Join(b[1..]));
      JoinInjective(a[1..], b[1..]);
      assert a == [a[0]] + a[1..] && b == [b[0]] + b[1..];
    } else if Join(a) == Join(b) && a != [] {
      assert a == [a[0]] && b == [b[0]];
    }
  }

  lemma SortKeepsNames(names: seq<string>)
    requires CleanNames(names)
    ensures CleanNames(Sort(names))
  {
    SortSorts(names);
    forall i | 0 <= i < |Sort(names)| ensures Sort(names)[i] != "" && ',' !in Sort(names)[i] {
      assert Sort(names)[i] in multiset(Sort(names));
      assert Sort(names)[i] in names;
    }
  }

  /** What a pump asks for, order of the names aside. */
  datatype Target = Off | On(mode: string, apps: multiset<string>)

  function Desired(f: Wish): Target {
    if f.Wanted() then On(f.mode, multiset(f.apps)) else Off
  }

  /** The fingerprint of an enabled wish, as a prefix, a separator and two parts. */
  function Body(mode: string, list: string): string {
    mode + ['|'] + list
  }

  lemma {:induction false} EnabledFingerprint(f: Wish)
    requires f.enabled
    ensures Fingerprint(f) == "true" + ['|'] + Body(f.mode, Join(Sort(f.apps)))
  {
    var list := Join(Sort(f.apps));
    assert "true" + "|" + f.mode + "|" + list == "true" + ['|'] + (f.mode + ['|'] + list);
  }

  lemma {:induction false} BodyInjective(mode: string, list: string, mode2: string, list2: string)
    requires '|' !in mode && '|' !in mode2
    ensures "true" + ['|'] + Body(mode, list) == "true" + ['|'] + Body(mode2, list2) <==> mode == mode2 && list == list2
  {
    if "true" + ['|'] + Body(mode, list) == "true" + ['|'] + Body(mode2, list2) {
      SplitAt("true", '|', Body(mode, list), "true", Body(mode2, list2));
      SplitAt(mode, '|', list, mode2, list2);
    }
  }

  lemma {:induction false} JoinSortedIdentifies(a: seq<string>, b: seq<string>)
    requires CleanNames(a) && CleanNames(b)
    ensures Join(Sort(a)) == Join(Sort(b)) <==> multiset(a) == multiset(b)
  {
    SortKeepsNames(a);
    SortKeepsNames(b);
    JoinInjective(Sort(a), Sort(b));
    SortCanonical(a, b);
  }

  /** Wishes with clean names have one fingerprint exactly when they ask for the same. */
  lemma {:induction false} FingerprintIdentifies(f: Wish, g: Wish)
    requires CleanWish(f) && CleanWish(g) && f.enabled && g.enabled
    ensures Fingerprint(f) == Fingerprint(g) <==> f.mode == g.mode && multiset(f.apps) == multiset(g.apps)
  {
    EnabledFingerprint(f);
    EnabledFingerprint(g);
    BodyInjective(f.mode, Join(Sort(f.apps)), g.mode, Join(Sort(g.apps)));
    JoinSortedIdentifies(f.apps, g.apps);
  }

  // ---- the pump ------------------------------------------------------------

  type Memory = Option<(bool, string)>

  function Remember(last: Memory, f: Wish): Memory {
    if f.Wanted() then Some((true, Fingerprint(f))) else None
  }

  function Emit(last: Memory, f: Wish): seq<Command> {
    if f.Wanted() then
      if last == Some((true, Fingerprint(f))) then [] else [ApplySplit(f.mode, f.apps)]
    else if last.Some? then [ClearSplit]
    else []
  }

  class SplitSync {
    var lastSplitSent: Option<(bool, string)>
    var sent: seq<Command>

    constructor ()
      ensures lastSplitSent.None? && sent == []
    {
      lastSplitSent, sent := None, [];
    }

    method PumpSplitTunnel(f: Wish)
      modifies this
      ensures lastSplitSent == Remember(old(lastSplitSent), f)
      ensures sent == old(sent) + Emit(old(lastSplitSent), f)
    {
      var want := f.enabled && (f.connected || f.torRoute);
      var fp := Fingerprint(f);
      if want {
        if lastSplitSent != Some((true, fp)) {
          sent := sent + [ApplySplit(f.mode, f.apps)];
          lastSplitSent := Some((true, fp));
        }
      } else if lastSplitSent.Some? {
        sent := sent + [ClearSplit];
        lastSplitSent := None;
      }
    }
  }

  // ---- whole runs ----------------------------------------------------------

  function MemoryAfter(wishes: seq<Wish>): Memory {
    if wishes == [] then None else Remember(MemoryAfter(Front(wishes)), Last(wishes))
  }

  function SentBy(wishes: seq<Wish>): seq<Command> {
    if wishes == [] then []
    else SentBy(Front(wishes)) + Emit(MemoryAfter(Front(wishes)), Last(wishes))
  }

  /** What the helper has been told to do, folding the commands. */
  function Told(sent: seq<Command>): Target {
    if sent == [] then Off
    else match Last(sent)
      case ApplySplit(mode, apps) => On(mode, multiset(apps))
      case ClearSplit => Off
  }

  /** Both ask for routing, and the synchroniser cannot tell them apart. */
  predicate Alike(f: Wish, g: Wish) {
    f.Wanted() && g.Wanted() && Fingerprint(f) == Fingerprint(g)
  }

  /** The first of the trailing block of wanted wishes that share one fingerprint. */
  function Anchor(wishes: seq<Wish>): Wish
    requires wishes != []
  {
    if |wishes| > 1 && Alike(Last(Front(wishes)), Last(wishes)) then Anchor(Front(wishes)) else Last(wishes)
  }

  lemma {:induction false} AnchorOpensBlock(wishes: seq<Wish>) returns (a: nat)
    requires wishes != []
    ensures a < |wishes| && Anchor(wishes) == wishes[a]
    ensures forall k :: a < k < |wishes| ==> Alike(wishes[k - 1], wishes[k])
    ensures a > 0 ==> !Alike(wishes[a - 1], wishes[a])
  {
    if |wishes| > 1 && Alike(Last(Front(wishes)), Last(wishes)) {
      a := AnchorOpensBlock(Front(wishes));
    } else {
      a := |wishes| - 1;
    }
  }

  /** The whole block looks like its first wish. */
  lemma {:induction false} AnchorLooksTheSame(wishes: seq<Wish>)
    requires wishes != []
    ensures Anchor(wishes) in wishes
    ensures Anchor(wishes) == Last(wishes) || Alike(Anchor(wishes), Last(wishes))
  {
    if |wishes| > 1 && Alike(Last(Front(wishes)), Last(wishes)) {
      AnchorLooksTheSame(Front(wishes));
      assert wishes == Front(wishes) + [Last(wishes)];
    }
  }

  lemma RemembersLastWish(wishes: seq<Wish>)
    ensures MemoryAfter(wishes) ==
            if wishes != [] && Last(wishes).Wanted() then Some((true, Fingerprint(Last(wishes)))) else None
  {
  }

  /** What one pump does to what the helper has been told. */
  lemma {:induction false} PumpTells(before: seq<Command>, memory: Memory, f: Wish)
    requires memory.None? ==> Told(before) == Off
    ensures Told(before + Emit(memory, f)) ==
            if f.Wanted() && memory == Some((true, Fingerprint(f))) then Told(before) else Desired(f)
  {
    assert before + [] == before;
    Snoc(before, ApplySplit(f.mode, f.apps));
    Snoc(before, ClearSplit);
  }

  /** After any pumps whatever, the helper has been told what the anchor asked for. */
  lemma {:induction false} HelperFollowsAnchor(wishes: seq<Wish>)
    ensures Told(SentBy(wishes)) == if wishes == [] then Off else Desired(Anchor(wishes))
  {
    if wishes == [] {
    } else {
      var before, f := Front(wishes), Last(wishes);
      HelperFollowsAnchor(before);
      RemembersLastWish(before);
      if before != [] && !Last(before).Wanted() {
        AnchorLooksTheSame(before);
      }
      PumpTells(SentBy(before), MemoryAfter(before), f);
    }
  }

  /**
    The latest command itself: while the last pump wants routing, the anchor's
    own mode and apps, in the anchor's order; otherwise a clear, if anything
    was ever sent. Routing is wanted when it is enabled and a tunnel is up.
   */
  lemma {:induction false} LatestCommand(wishes: seq<Wish>)
    requires wishes != []
    ensures
      var sent, last := SentBy(wishes), Last(wishes);
      if last.enabled && (last.connected || last.torRoute) then
        sent != [] && Last(sent) == ApplySplit(Anchor(wishes).mode, Anchor(wishes).apps)
      else
        sent == [] || Last(sent) == ClearSplit
  {
    var before, f := Front(wishes), Last(wishes);
    RemembersLastWish(before);
    if before == [] {
    } else {
      LatestCommand(before);
    }
    assert SentBy(before) + [] == SentBy(before);
    Snoc(SentBy(before), ApplySplit(f.mode, f.apps));
    Snoc(SentBy(before), ClearSplit);
  }

  /**
    The helper is in step after a pump, whatever the names and however many
    changes have been missed before, exactly when the pump asks for nothing or
    for the same as the first of the block of pumps that look like it.
   */
  lemma {:induction false} InStepIff(wishes: seq<Wish>)
    requires wishes != []
    ensures Told(SentBy(wishes)) == Desired(Last(wishes))
       <==> !Last(wishes).Wanted() || Desired(Anchor(wishes)) == Desired(Last(wishes))
  {
    HelperFollowsAnchor(wishes);
    AnchorLooksTheSame(wishes);
  }

  ghost predicate CleanWishes(wishes: seq<Wish>) {
    forall i :: 0 <= i < |wishes| ==> CleanWish(wishes[i])
  }

  /** A command is sent only for a change, and a clear only after an apply. */
  ghost predicate NoIdleCommand(sent: seq<Command>) {
    forall i :: 0 <= i < |sent| ==> Told(sent[..i]) != Told(sent[..i + 1])
  }

  /** With clean names the anchor asks for what the last pump asks for. */
  lemma {:induction false} CleanAnchor(wishes: seq<Wish>)
    requires wishes != [] && CleanWishes(wishes)
    ensures Desired(Anchor(wishes)) == Desired(Last(wishes))
  {
    AnchorLooksTheSame(wishes);
    if Anchor(wishes) != Last(wishes) {
      FingerprintIdentifies(Anchor(wishes), Last(wishes));
    }
  }

  lemma {:induction false} InStepWhenClean(wishes: seq<Wish>)
    requires CleanWishes(wishes)
    ensures Told(SentBy(wishes)) == if wishes == [] then Off else Desired(Last(wishes))
  {
    HelperFollowsAnchor(wishes);
    if wishes != [] {
      CleanAnchor(wishes);
    }
  }

  /** With clean names a command is sent only when the wish has changed. */
  lemma {:induction false} EmitsOnChange(wishes: seq<Wish>)
    requires wishes != [] && CleanWishes(wishes)
    ensures
      var more := Emit(MemoryAfter(Front(wishes)), Last(wishes));
      |more| <= 1 && (more != [] ==> Told(SentBy(wishes)) != Told(SentBy(Front(wishes))))
  {
    var before, f := Front(wishes), Last(wishes);
    assert CleanWishes(before);
    InStepWhenClean(wishes);
    InStepWhenClean(before);
    RemembersLastWish(before);
    if before != [] && Last(before).Wanted() && f.Wanted() {
      FingerprintIdentifies(Last(before), f);
    }
  }

  /**
    After every pump the commands sent so far, folded, are exactly what that
    pump asks for, and none of them was idle: no clear without an apply in
    force, no apply repeating the one in force.
   */
  lemma {:induction false} HelperIsInStep(wishes: seq<Wish>)
    requires CleanWishes(wishes)
    ensures Told(SentBy(wishes)) == if wishes == [] then Off else Desired(Last(wishes))
    ensures NoIdleCommand(SentBy(wishes))
  {
    InStepWhenClean(wishes);
    if wishes == [] {
    } else {
      HelperIsInStep(Front(wishes));
      EmitsOnChange(wishes);
      ExtendIdleFree(SentBy(Front(wishes)), Emit(MemoryAfter(Front(wishes)), Last(wishes)));
    }
  }

  lemma ExtendIdleFree(before: seq<Command>, more: seq<Command>)
    requires NoIdleCommand(before) && |more| <= 1
    requires more != [] ==> Told(before + more) != Told(before)
    ensures NoIdleCommand(before + more)
  {
    var all := before + more;
    forall i | 0 <= i < |all| ensures Told(all[..i]) != Told(all[..i + 1]) {
      if i < |before| {
        assert all[..i] == before[..i] && all[..i + 1] == before[..i + 1];
      } else {
        assert all[..i] == before && all[..i + 1] == all;
      }
    }
  }

  // ---- where fingerprints fail ---------------------------------------------

  lemma TwoNames()
    ensures Join(Sort(["a,b"])) == "a,b"
    ensures Join(Sort(["a", "b"])) == "a,b"
  {
    assert Sort(["a,b"]) == ["a,b"];
    assert Sort(["a", "b"]) == ["a", "b"];
    assert Join(["a", "b"]) == "a" + "," + "b" == "a,b";
  }

  /** A first wish, then another one pumped again and again. */
  function Then(f: Wish, g: Wish, times: nat): seq<Wish> {
    if times == 0 then [f] else Then(f, g, times - 1) + [g]
  }

  lemma {:induction false} AlikeStaysAnchored(f: Wish, g: Wish, times: nat)
    requires Alike(f, g)
    ensures Anchor(Then(f, g, times)) == f
    ensures Last(Then(f, g, times)) == if times == 0 then f else g
  {
    if times == 0 {
    } else {
      AlikeStaysAnchored(f, g, times - 1);
      Snoc(Then(f, g, times - 1), g);
    }
  }

  /** An app name with a comma in it can go unnoticed, at the change and at every later pump. */
  lemma {:induction false} CommaNamesCollide(mode: string, times: nat)
    requires times > 0
    ensures
      var f := Wish(true, mode, ["a,b"], true, false);
      var g := Wish(true, mode, ["a", "b"], true, false);
      && Fingerprint(f) == Fingerprint(g)
      && Last(Then(f, g, times)) == g
      && Told(SentBy(Then(f, g, times))) != Desired(g)
  {
    var f := Wish(true, mode, ["a,b"], true, false);
    var g := Wish(true, mode, ["a", "b"], true, false);
    TwoNames();
    assert "a" in multiset(g.apps) && "a" !in multiset(f.apps);
    AlikeStaysAnchored(f, g, times);
    InStepIff(Then(f, g, times));
  }
}
