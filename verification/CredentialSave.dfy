/** Saving settings together with their credentials: plan the keyring changes, look up what they replace, apply them,
    and roll back when anything fails. The keyring may refuse any call, and a refused call may have taken effect
    anyway. */
module CredentialSave {
  import opened Optional

  datatype Kind = AiToken | TranslationToken | VoiceToken | AccountToken
  datatype Slot = Slot(kind: Kind, provider: string)
  datatype Answer = Found(value: string) | NotFound | Unavailable

  type Slots = map<Slot, string>

  predicate SameAt(a: Slots, b: Slots, s: Slot) {
    (s in a <==> s in b) && (s in a ==> a[s] == b[s])
  }

  ghost predicate AgreeOutside(a: Slots, b: Slots, touched: set<Slot>) {
    forall s :: s !in touched ==> SameAt(a, b, s)
  }

  /** What Secret Service was asked and said. */
  datatype Query = Query(slot: Slot, answer: Answer)

  /** The slots for which it could not answer. */
  function Unreached(asked: seq<Query>): set<Slot> {
    set q | q in asked && q.answer.Unavailable? :: q.slot
  }

  /** Secret Service. `asked` is every lookup so far, `refused` the number of writes it reported as failed. */
  class Keyring {
    var slots: Slots
    ghost var asked: seq<Query>
    ghost var refused: nat

    method Lookup(s: Slot) returns (r: Answer)
      modifies this`asked
      ensures asked == old(asked) + [Query(s, r)]
      ensures r.Found? ==> s in slots && slots[s] == r.value
      ensures r.NotFound? ==> s !in slots
    {
      var reachable: bool := *;
      r := if !reachable then Unavailable else if s in slots then Found(slots[s]) else NotFound;
      asked := asked + [Query(s, r)];
    }

    method Store(s: Slot, value: string) returns (ok: bool)
      modifies this`slots, this`refused
      ensures refused == old(refused) + if ok then 0 else 1
      ensures AgreeOutside(slots, old(slots), {s})
      ensures ok ==> slots == old(slots)[s := value]
    {
      ok := *;
      refused := refused + if ok then 0 else 1;
      var effect: bool, partial: string := *, *;
      if ok {
        slots := slots[s := value];
      } else if effect {
        slots := slots[s := partial];
      }
    }

    method Erase(s: Slot) returns (ok: bool)
      modifies this`slots, this`refused
      ensures refused == old(refused) + if ok then 0 else 1
      ensures AgreeOutside(slots, old(slots), {s})
      ensures ok ==> slots == old(slots) - {s}
    {
      ok := *;
      refused := refused + if ok then 0 else 1;
      var effect: bool := *;
      if ok || effect {
        slots := slots - {s};
      }
    }
  }

  // -------------------------------------------------------------------------------------------------------- settings

  /** A feature that may own a credential; `provider` is empty when the selection has no name. */
  datatype Feature = Feature(enabled: bool, provider: string, token: string, cleared: bool)

  /** `deeplx` says whether the translation feature's selected backend is the one that authenticates. */
  datatype Settings = Settings(ai: Feature, translation: Feature, deeplx: bool, voice: Feature)

  const DEEPLX: string := "deeplx"

  predicate UsesTranslation(s: Settings) {
    s.translation.enabled && s.deeplx
  }

  /** Whether the settings use a credential of this kind, and under which provider it is filed. */
  predicate InUse(s: Settings, k: Kind) {
    match k
    case AiToken => s.ai.enabled
    case TranslationToken => UsesTranslation(s)
    case VoiceToken => s.voice.enabled
    case AccountToken => false
  }

  function Owner(s: Settings, k: Kind): string {
    match k
    case AiToken => s.ai.provider
    case TranslationToken => DEEPLX
    case VoiceToken => s.voice.provider
    case AccountToken => ""
  }

  function FeatureOf(s: Settings, k: Kind): Feature {
    match k
    case AiToken => s.ai
    case TranslationToken => s.translation
    case VoiceToken => s.voice
    case AccountToken => Feature(false, "", "", false)
  }

  /** A clear request outranks the token field. */
  function TokenOf(s: Settings, k: Kind): string {
    if FeatureOf(s, k).cleared then "" else FeatureOf(s, k).token
  }

  /** The provider whose credential the stored configuration uses, if it uses one. */
  function StoredOwner(persisted: Settings, k: Kind): string {
    if InUse(persisted, k) then Owner(persisted, k) else ""
  }

  // ------------------------------------------------------------------------------------------------------------ plan

  datatype Change = Change(slot: Slot, value: string, remove: bool, previous: Answer, attempted: bool)

  function Filed(slot: Slot, value: string): Change {
    Change(slot, value, false, NotFound, false)
  }

  function Dropped(slot: Slot): Change {
    Change(slot, "", true, NotFound, false)
  }

  /** A token read back for another provider is not filed under this one. */
  predicate Hydrated(slots: Slots, k: Kind, previous: string, provider: string, token: string) {
    previous != "" && previous != provider && Slot(k, previous) in slots && slots[Slot(k, previous)] == token
  }

  function Previous(persisted: Settings, k: Kind): string {
    if k.TranslationToken? then "" else StoredOwner(persisted, k)
  }

  /** The token typed for a feature in use belongs in this slot. */
  predicate ToFile(slots: Slots, persisted: Settings, s: Settings, slot: Slot) {
    var k := slot.kind;
    && InUse(s, k) && slot.provider == Owner(s, k) && TokenOf(s, k) != ""
    && !Hydrated(slots, k, Previous(persisted, k), Owner(s, k), TokenOf(s, k))
  }

  /** The credential in this slot is to be forgotten: its feature was switched off, or the user asked. */
  predicate ToForget(persisted: Settings, s: Settings, slot: Slot) {
    var k := slot.kind;
    && slot.provider != ""
    && ((!InUse(s, k) && slot.provider == StoredOwner(persisted, k))
        || (FeatureOf(s, k).cleared && slot.provider == Owner(s, k)))
  }

  function StoresFor(slots: Slots, persisted: Settings, s: Settings, k: Kind): seq<Change> {
    var slot := Slot(k, Owner(s, k));
    if ToFile(slots, persisted, s, slot) then [Filed(slot, TokenOf(s, k))] else []
  }

  predicate Removes(plan: seq<Change>, slot: Slot) {
    exists i :: 0 <= i < |plan| && plan[i].remove && plan[i].slot == slot
  }

  predicate Stores(plan: seq<Change>, slot: Slot) {
    exists i :: 0 <= i < |plan| && !plan[i].remove && plan[i].slot == slot
  }

  /** `plan_removal`: once per slot. */
  function WithRemoval(plan: seq<Change>, wanted: bool, slot: Slot): seq<Change> {
    if !wanted || slot.provider == "" || Removes(plan, slot) then plan else plan + [Dropped(slot)]
  }

  function StorePlan(slots: Slots, persisted: Settings, s: Settings): seq<Change> {
    StoresFor(slots, persisted, s, AiToken) + StoresFor(slots, persisted, s, TranslationToken)
    + StoresFor(slots, persisted, s, VoiceToken)
  }

  function WithSwitchOff(plan: seq<Change>, persisted: Settings, s: Settings, k: Kind): seq<Change> {
    WithRemoval(plan, !InUse(s, k), Slot(k, StoredOwner(persisted, k)))
  }

  function WithClear(plan: seq<Change>, s: Settings, k: Kind): seq<Change> {
    WithRemoval(plan, FeatureOf(s, k).cleared, Slot(k, Owner(s, k)))
  }

  /** Every change a save plans. */
  function Planned(slots: Slots, persisted: Settings, s: Settings): seq<Change> {
    var off := WithSwitchOff(WithSwitchOff(WithSwitchOff(StorePlan(slots, persisted, s), persisted, s, AiToken),
                                           persisted, s, TranslationToken), persisted, s, VoiceToken);
    WithClear(WithClear(WithClear(off, s, AiToken), s, TranslationToken), s, VoiceToken)
  }

  predicate DistinctSlots(plan: seq<Change>) {
    forall i, j :: 0 <= i < j < |plan| ==> plan[i].slot != plan[j].slot
  }

  predicate Untried(plan: seq<Change>) {
    forall i :: 0 <= i < |plan| ==> !plan[i].attempted
  }

  lemma RemovalAdds(plan: seq<Change>, wanted: bool, slot: Slot, other: Slot)
    ensures Removes(WithRemoval(plan, wanted, slot), other) <==>
            Removes(plan, other) || (wanted && slot.provider != "" && slot == other)
    ensures Stores(WithRemoval(plan, wanted, slot), other) <==> Stores(plan, other)
    ensures DistinctSlots(plan) && !(wanted && slot.provider != "" && Stores(plan, slot)) ==>
      DistinctSlots(WithRemoval(plan, wanted, slot))
  {
    var plan' := WithRemoval(plan, wanted, slot);
    if plan' != plan {
      assert plan'[..|plan|] == plan && plan'[|plan|] == Dropped(slot);
      if Removes(plan, other) {
        var i :| 0 <= i < |plan| && plan[i].remove && plan[i].slot == other;
        assert plan'[i].remove && plan'[i].slot == other;
      }
      if Stores(plan, other) {
        var i :| 0 <= i < |plan| && !plan[i].remove && plan[i].slot == other;
        assert !plan'[i].remove && plan'[i].slot == other;
      }
      assert slot == other ==> plan'[|plan|].remove && plan'[|plan|].slot == other;
    }
  }

  lemma StorePlanIsExact(slots: Slots, persisted: Settings, s: Settings, slot: Slot)
    ensures var plan := StorePlan(slots, persisted, s);
            && DistinctSlots(plan) && !Removes(plan, slot)
            && (Stores(plan, slot) <==> ToFile(slots, persisted, s, slot))
  {
    hide Hydrated, Previous, TokenOf;
    var a, t, v := StoresFor(slots, persisted, s, AiToken), StoresFor(slots, persisted, s, TranslationToken),
                   StoresFor(slots, persisted, s, VoiceToken);
    var plan := a + t + v;
    assert slot.kind.AccountToken? ==> !ToFile(slots, persisted, s, slot);
    if ToFile(slots, persisted, s, slot) {
      if slot.kind.AiToken? {
        assert plan[0] == Filed(slot, TokenOf(s, slot.kind));
      } else if slot.kind.TranslationToken? {
        assert plan[|a|] == Filed(slot, TokenOf(s, slot.kind));
      } else {
        assert plan[|a| + |t|] == Filed(slot, TokenOf(s, slot.kind));
      }
    }
  }

  /** A token is filed only for a feature in use whose credential is not being cleared, so no slot is ever planned both
      for a store and for a removal. */
  lemma FiledIsNotForgotten(slots: Slots, persisted: Settings, s: Settings, slot: Slot)
    ensures !(ToFile(slots, persisted, s, slot) && ToForget(persisted, s, slot))
  {
  }

  lemma SwitchOffStep(slots: Slots, persisted: Settings, s: Settings, plan: seq<Change>, k: Kind, slot: Slot)
    requires DistinctSlots(plan)
    requires forall x :: Stores(plan, x) ==> ToFile(slots, persisted, s, x)
    ensures var plan' := WithSwitchOff(plan, persisted, s, k);
            && DistinctSlots(plan') && (Stores(plan', slot) <==> Stores(plan, slot))
            && (Removes(plan', slot) <==>
                (Removes(plan, slot)
                 || (slot.kind == k && slot.provider != "" && !InUse(s, k)
                     && slot.provider == StoredOwner(persisted, k))))
  {
    hide DistinctSlots, Stores, Removes, WithRemoval;
    var off := Slot(k, StoredOwner(persisted, k));
    RemovalAdds(plan, !InUse(s, k), off, slot);
    FiledIsNotForgotten(slots, persisted, s, off);
  }

  lemma ClearStep(slots: Slots, persisted: Settings, s: Settings, plan: seq<Change>, k: Kind, slot: Slot)
    requires DistinctSlots(plan)
    requires forall x :: Stores(plan, x) ==> ToFile(slots, persisted, s, x)
    ensures var plan' := WithClear(plan, s, k);
            && DistinctSlots(plan') && (Stores(plan', slot) <==> Stores(plan, slot))
            && (Removes(plan', slot) <==>
                (Removes(plan, slot)
                 || (slot.kind == k && slot.provider != "" && FeatureOf(s, k).cleared && slot.provider == Owner(s, k))))
  {
    hide DistinctSlots, Stores, Removes, WithRemoval;
    var cleared := Slot(k, Owner(s, k));
    RemovalAdds(plan, FeatureOf(s, k).cleared, cleared, slot);
    FiledIsNotForgotten(slots, persisted, s, cleared);
  }

  /** The plan says exactly this: every slot is touched at most once, a slot is stored to exactly when a typed token
      belongs there, and removed exactly when its credential is to be forgotten. */
  lemma PlanIsExact(slots: Slots, persisted: Settings, s: Settings)
    ensures var plan := Planned(slots, persisted, s);
            && DistinctSlots(plan)
            && (forall slot :: Stores(plan, slot) <==> ToFile(slots, persisted, s, slot))
            && (forall slot :: Removes(plan, slot) <==> ToForget(persisted, s, slot))
  {
    hide DistinctSlots, Stores, Removes, WithSwitchOff, WithClear, StorePlan, ToFile;
    var p0 := StorePlan(slots, persisted, s);
    forall slot ensures DistinctSlots(p0) && !Removes(p0, slot)
      && (Stores(p0, slot) <==> ToFile(slots, persisted, s, slot)) {
      StorePlanIsExact(slots, persisted, s, slot);
    }
    StorePlanIsExact(slots, persisted, s, Slot(AiToken, ""));
    var p1 := WithSwitchOff(p0, persisted, s, AiToken);
    forall slot { SwitchOffStep(slots, persisted, s, p0, AiToken, slot); }
    SwitchOffStep(slots, persisted, s, p0, AiToken, Slot(AiToken, ""));
    var p2 := WithSwitchOff(p1, persisted, s, TranslationToken);
    forall slot { SwitchOffStep(slots, persisted, s, p1, TranslationToken, slot); }
    SwitchOffStep(slots, persisted, s, p1, AiToken, Slot(AiToken, ""));
    var p3 := WithSwitchOff(p2, persisted, s, VoiceToken);
    forall slot { SwitchOffStep(slots, persisted, s, p2, VoiceToken, slot); }
    var p4 := WithClear(p3, s, AiToken);
    forall slot { ClearStep(slots, persisted, s, p3, AiToken, slot); }
    var p5 := WithClear(p4, s, TranslationToken);
    forall slot { ClearStep(slots, persisted, s, p4, TranslationToken, slot); }
    forall slot { ClearStep(slots, persisted, s, p5, VoiceToken, slot); }
  }

  predicate ValuesTyped(plan: seq<Change>, s: Settings) {
    forall i :: 0 <= i < |plan| && !plan[i].remove ==> plan[i].value == TokenOf(s, plan[i].slot.kind)
  }

  /** Stores carry the typed token, and nothing has been attempted. */
  predicate FreshPlan(plan: seq<Change>, s: Settings) {
    Untried(plan) && ValuesTyped(plan, s)
  }

  lemma RemovalKeepsFresh(plan: seq<Change>, s: Settings, wanted: bool, slot: Slot)
    requires FreshPlan(plan, s)
    ensures FreshPlan(WithRemoval(plan, wanted, slot), s)
  {
  }

  lemma PlannedIsFresh(slots: Slots, persisted: Settings, s: Settings)
    ensures FreshPlan(Planned(slots, persisted, s), s)
  {
    hide WithRemoval, FreshPlan;
    var p0 := StorePlan(slots, persisted, s);
    StoresAreFresh(slots, persisted, s);
    RemovalKeepsFresh(p0, s, !InUse(s, AiToken), Slot(AiToken, StoredOwner(persisted, AiToken)));
    var p1 := WithSwitchOff(p0, persisted, s, AiToken);
    RemovalKeepsFresh(p1, s, !InUse(s, TranslationToken),
                      Slot(TranslationToken, StoredOwner(persisted, TranslationToken)));
    var p2 := WithSwitchOff(p1, persisted, s, TranslationToken);
    RemovalKeepsFresh(p2, s, !InUse(s, VoiceToken), Slot(VoiceToken, StoredOwner(persisted, VoiceToken)));
    var p3 := WithSwitchOff(p2, persisted, s, VoiceToken);
    RemovalKeepsFresh(p3, s, s.ai.cleared, Slot(AiToken, Owner(s, AiToken)));
    var p4 := WithClear(p3, s, AiToken);
    RemovalKeepsFresh(p4, s, s.translation.cleared, Slot(TranslationToken, Owner(s, TranslationToken)));
    var p5 := WithClear(p4, s, TranslationToken);
    RemovalKeepsFresh(p5, s, s.voice.cleared, Slot(VoiceToken, Owner(s, VoiceToken)));
  }

  lemma StoresAreFresh(slots: Slots, persisted: Settings, s: Settings)
    ensures FreshPlan(StorePlan(slots, persisted, s), s)
  {
    hide ToFile;
  }

  // --------------------------------------------------------------------------------------------------- the transaction

  /** A feature is switched on that has no name to file a credential under. */
  predicate Nameless(s: Settings) {
    (InUse(s, AiToken) && s.ai.provider == "") || (InUse(s, VoiceToken) && s.voice.provider == "")
  }

  /** A feature in use has no credential: none was typed for it, none is to be forgotten, none is stored. */
  predicate Lacks(slots: Slots, persisted: Settings, s: Settings, k: Kind) {
    var slot := Slot(k, Owner(s, k));
    && (k.AiToken? || k.VoiceToken?) && InUse(s, k) && !FeatureOf(s, k).cleared
    && !ToFile(slots, persisted, s, slot) && slot !in slots
  }

  /** This lookup failed where the save cannot do without its answer: of what a typed token would replace, or of the
      credential it may have been read back from. A lookup that only asks whether there is a credential may fail. */
  predicate Hinders(slots: Slots, persisted: Settings, s: Settings, q: Query) {
    var k := q.slot.kind;
    && q.answer.Unavailable?
    && (ToFile(slots, persisted, s, q.slot)
        || (InUse(s, k) && TokenOf(s, k) != "" && q.slot.provider == Previous(persisted, k) != Owner(s, k)))
  }

  predicate Hindered(slots: Slots, persisted: Settings, s: Settings, asked: seq<Query>) {
    exists q :: q in asked && Hinders(slots, persisted, s, q)
  }

  /** The keyring could be asked for a credential, and it is missing. */
  predicate Missing(slots: Slots, persisted: Settings, s: Settings, asked: seq<Query>, k: Kind) {
    Lacks(slots, persisted, s, k) && Slot(k, Owner(s, k)) !in Unreached(asked)
  }

  /** Why a save is refused: the settings name no provider, a credential is missing, or the keyring did not answer. */
  predicate Refusable(slots: Slots, persisted: Settings, s: Settings, asked: seq<Query>) {
    || Nameless(s) || Hindered(slots, persisted, s, asked)
    || Missing(slots, persisted, s, asked, AiToken) || Missing(slots, persisted, s, asked, VoiceToken)
  }

  /** None of these lookups was about a credential that is to be forgotten. */
  predicate NoneToForget(persisted: Settings, s: Settings, asked: seq<Query>) {
    forall q :: q in asked ==> !ToForget(persisted, s, q.slot)
  }

  /** `plan_credential` of one feature: file the typed token unless it was read back for another provider; refuse when a
      required credential is provably missing or the keyring cannot be asked. */
  method PlanCredential(ring: Keyring, persisted: Settings, s: Settings, k: Kind)
    returns (ok: bool, stores: seq<Change>)
    requires !k.AccountToken?
    modifies ring`asked
    ensures old(ring.asked) <= ring.asked
    ensures ok ==> stores == StoresFor(ring.slots, persisted, s, k)
    ensures NoneToForget(persisted, s, ring.asked[|old(ring.asked)|..])
    ensures forall q :: q in ring.asked[|old(ring.asked)|..] ==> q.slot.kind == k
    ensures ok <==>
      && !(InUse(s, k) && Owner(s, k) == "")
      && !Hindered(ring.slots, persisted, s, ring.asked[|old(ring.asked)|..])
      && !Missing(ring.slots, persisted, s, ring.asked[|old(ring.asked)|..], k)
  {
    stores := [];
    if !InUse(s, k) { return true, []; }
    var provider := Owner(s, k);
    if provider == "" { return false, []; }
    var value := TokenOf(s, k);
    var previous := Previous(persisted, k);
    if value != "" && previous != "" && previous != provider {
      var hydrated := ring.Lookup(Slot(k, previous));
      assert ring.asked[|old(ring.asked)|..] == [Query(Slot(k, previous), hydrated)];
      if hydrated.Unavailable? {
        assert Query(Slot(k, previous), Unavailable) in ring.asked[|old(ring.asked)|..];
        return false, [];
      }
      if hydrated.Found? && hydrated.value == value {
        value := "";
      }
    }
    if value != "" { return true, [Filed(Slot(k, provider), value)]; }
    if k.TranslationToken? || FeatureOf(s, k).cleared { return true, []; }
    ghost var before := ring.asked;
    var stored := ring.Lookup(Slot(k, provider));
    ok := !stored.NotFound?;
    ghost var last := Query(Slot(k, provider), stored);
    assert ring.asked[|old(ring.asked)|..] == before[|old(ring.asked)|..] + [last];
    assert last in ring.asked[|old(ring.asked)|..] && !Hinders(ring.slots, persisted, s, last);
    assert last.slot in Unreached(ring.asked[|old(ring.asked)|..]) <==> stored.Unavailable?;
  }

  lemma SliceFrom(a: seq<Query>, b: seq<Query>, c: seq<Query>)
    requires a <= b <= c
    ensures Unreached(c[|a|..]) == Unreached(b[|a|..]) + Unreached(c[|b|..])
    ensures forall q :: q in c[|a|..] <==> q in b[|a|..] || q in c[|b|..]
  {
    assert c[|a|..] == b[|a|..] + c[|b|..];
  }

  method MakePlan(ring: Keyring, persisted: Settings, s: Settings) returns (ok: bool, plan: seq<Change>)
    modifies ring`asked
    ensures old(ring.asked) <= ring.asked
    ensures ok ==> plan == Planned(ring.slots, persisted, s)
    ensures NoneToForget(persisted, s, ring.asked[|old(ring.asked)|..])
    ensures ok <==> !Refusable(ring.slots, persisted, s, ring.asked[|old(ring.asked)|..])
  {
    hide WithRemoval, StoresFor, Hinders;
    plan := [];
    ghost var asked0 := ring.asked;
    var ai, translation, voice;
    ok, ai := PlanCredential(ring, persisted, s, AiToken);
    if !ok { return; }
    ghost var asked1 := ring.asked;
    ok, translation := PlanCredential(ring, persisted, s, TranslationToken);
    SliceFrom(asked0, asked1, ring.asked);
    if !ok { return; }
    ghost var asked2 := ring.asked;
    ok, voice := PlanCredential(ring, persisted, s, VoiceToken);
    SliceFrom(asked0, asked2, ring.asked);
    if !ok { return; }
    plan := ai + translation + voice;
    plan := WithSwitchOff(plan, persisted, s, AiToken);
    plan := WithSwitchOff(plan, persisted, s, TranslationToken);
    plan := WithSwitchOff(plan, persisted, s, VoiceToken);
    plan := WithClear(plan, s, AiToken);
    plan := WithClear(plan, s, TranslationToken);
    plan := WithClear(plan, s, VoiceToken);
  }

  /** The change's recorded previous value is what the slot holds. */
  predicate Known(slots: Slots, c: Change) {
    match c.previous
    case Found(v) => c.slot in slots && slots[c.slot] == v
    case NotFound => c.slot !in slots
    case Unavailable => false
  }

  predicate AllKnown(slots: Slots, plan: seq<Change>) {
    forall i :: 0 <= i < |plan| ==> Known(slots, plan[i])
  }

  predicate SameChange(c: Change, d: Change) {
    c.slot == d.slot && c.remove == d.remove && c.value == d.value
  }

  predicate ComesFrom(plan: seq<Change>, c: Change) {
    exists d :: d in plan && SameChange(c, d)
  }

  predicate From(plan: seq<Change>, kept: seq<Change>) {
    forall c :: c in kept ==> ComesFrom(plan, c)
  }

  /** A planned removal is kept exactly when the slot holds something and the keyring said so. */
  predicate Dealt(slots: Slots, kept: seq<Change>, asked: seq<Query>, slot: Slot) {
    Removes(kept, slot) <==> slot in slots && slot !in Unreached(asked)
  }

  /** The lookups in which the changes got their previous values. */
  function Queries(looked: seq<Change>): seq<Query> {
    seq(|looked|, i requires 0 <= i < |looked| => Query(looked[i].slot, looked[i].previous))
  }

  /** The same changes, with what the keyring answered. */
  predicate Looked(slots: Slots, plan: seq<Change>, looked: seq<Change>) {
    |looked| == |plan|
    && forall i :: 0 <= i < |plan| ==>
      && looked[i] == plan[i].(previous := looked[i].previous)
      && (looked[i].previous.Unavailable? || Known(slots, looked[i]))
  }

  method AskAll(ring: Keyring, plan: seq<Change>) returns (looked: seq<Change>)
    modifies ring`asked
    ensures Looked(ring.slots, plan, looked) && ring.asked == old(ring.asked) + Queries(looked)
  {
    looked := plan;
    var i := 0;
    while i < |plan|
      invariant 0 <= i <= |plan| == |looked| && looked[i..] == plan[i..]
      invariant Looked(ring.slots, plan[..i], looked[..i]) && ring.asked == old(ring.asked) + Queries(looked[..i])
    {
      var previous := ring.Lookup(looked[i].slot);
      looked := looked[i := looked[i].(previous := previous)];
      assert looked[..i + 1] == looked[..i] + [looked[i]];
      assert Queries(looked[..i + 1]) == Queries(looked[..i]) + [Query(looked[i].slot, previous)];
      i := i + 1;
    }
    assert plan[..i] == plan && looked[..i] == looked;
  }

  predicate Pointless(c: Change) {
    c.remove && !c.previous.Found?
  }

  /** Without the removals of what is not there or cannot be reached. */
  function Kept(looked: seq<Change>): seq<Change> {
    if looked == [] then []
    else
      var n := |looked| - 1;
      Kept(looked[..n]) + (if Pointless(looked[n]) then [] else [looked[n]])
  }

  lemma {:induction false} KeptMembers(looked: seq<Change>)
    ensures forall c :: c in Kept(looked) <==> c in looked && !Pointless(c)
    ensures DistinctSlots(looked) ==> DistinctSlots(Kept(looked))
  {
    hide Pointless;
    if looked != [] {
      var n := |looked| - 1;
      KeptMembers(looked[..n]);
      assert looked == looked[..n] + [looked[n]];
      if DistinctSlots(looked) {
        forall c | c in looked[..n] ensures c.slot != looked[n].slot {
          var i :| 0 <= i < n && looked[i] == c;
        }
      }
    }
  }

  /** Look up what every change would replace. A store that cannot be looked up refuses the save; a removal of something
      that is not there, or cannot be reached, is dropped. */
  method LookUp(ring: Keyring, plan: seq<Change>) returns (ok: bool, kept: seq<Change>)
    requires DistinctSlots(plan) && Untried(plan)
    modifies ring`asked
    ensures old(ring.asked) <= ring.asked
    ensures ok <==>
      !exists q :: q in ring.asked[|old(ring.asked)|..] && q.answer.Unavailable? && Stores(plan, q.slot)
    ensures forall q :: q in ring.asked[|old(ring.asked)|..] ==> Stores(plan, q.slot) || Removes(plan, q.slot)
    ensures ok ==> forall slot :: Removes(plan, slot) ==> Dealt(ring.slots, kept, ring.asked[|old(ring.asked)|..], slot)
    ensures ok ==> DistinctSlots(kept) && AllKnown(ring.slots, kept) && From(plan, kept) && Untried(kept)
    ensures ok ==> forall slot :: Stores(plan, slot) ==> Stores(kept, slot)
  {
    hide DistinctSlots, AllKnown, From, Untried, Stores, Removes, Dealt, Looked;
    var looked := AskAll(ring, plan);
    assert ring.asked[|old(ring.asked)|..] == Queries(looked);
    QueriesArePlanned(ring.slots, plan, looked);
    if exists i :: 0 <= i < |looked| && !looked[i].remove && looked[i].previous.Unavailable? {
      var i :| 0 <= i < |looked| && !looked[i].remove && looked[i].previous.Unavailable?;
      return false, [];
    }
    kept := Kept(looked);
    LookedIsDistinct(ring.slots, plan, looked);
    KeptMembers(looked);
    KeptIsKnown(ring.slots, plan, looked);
    forall slot | Stores(plan, slot) ensures Stores(kept, slot) {
      StoreIsKept(ring.slots, plan, looked, slot);
    }
    forall slot | Removes(plan, slot) ensures Dealt(ring.slots, kept, Queries(looked), slot) {
      RemovalIsDealt(ring.slots, plan, looked, slot);
    }
    ok := true;
  }

  /** Every slot of the plan was asked about, and no other. */
  lemma QueriesArePlanned(slots: Slots, plan: seq<Change>, looked: seq<Change>)
    requires Looked(slots, plan, looked) && DistinctSlots(plan)
    ensures forall q :: q in Queries(looked) ==> Stores(plan, q.slot) || Removes(plan, q.slot)
    ensures (exists q :: q in Queries(looked) && q.answer.Unavailable? && Stores(plan, q.slot)) <==>
            (exists i :: 0 <= i < |looked| && !looked[i].remove && looked[i].previous.Unavailable?)
  {
    forall q | q in Queries(looked)
      ensures exists i :: 0 <= i < |looked| && q == Query(looked[i].slot, looked[i].previous)
      ensures Stores(plan, q.slot) || Removes(plan, q.slot)
    {
      var i :| 0 <= i < |Queries(looked)| && Queries(looked)[i] == q;
      assert plan[i].slot == q.slot;
    }
    if exists q :: q in Queries(looked) && q.answer.Unavailable? && Stores(plan, q.slot) {
      var q :| q in Queries(looked) && q.answer.Unavailable? && Stores(plan, q.slot);
      var i :| 0 <= i < |looked| && q == Query(looked[i].slot, looked[i].previous);
      assert plan[i].slot == q.slot;
    }
    if i :| 0 <= i < |looked| && !looked[i].remove && looked[i].previous.Unavailable? {
      assert Queries(looked)[i] in Queries(looked) && plan[i].slot == looked[i].slot;
    }
  }

  lemma LookedIsDistinct(slots: Slots, plan: seq<Change>, looked: seq<Change>)
    requires Looked(slots, plan, looked) && DistinctSlots(plan)
    ensures DistinctSlots(looked)
  {
  }

  predicate StoresAnswered(looked: seq<Change>) {
    forall i :: 0 <= i < |looked| && !looked[i].remove ==> !looked[i].previous.Unavailable?
  }

  lemma KeptIsKnown(slots: Slots, plan: seq<Change>, looked: seq<Change>)
    requires Looked(slots, plan, looked) && Untried(plan) && StoresAnswered(looked)
    ensures AllKnown(slots, Kept(looked)) && From(plan, Kept(looked)) && Untried(Kept(looked))
  {
    hide Kept, Known;
    KeptMembers(looked);
    var kept := Kept(looked);
    forall c | c in kept ensures Known(slots, c) && ComesFrom(plan, c) && !c.attempted {
      var i :| 0 <= i < |looked| && looked[i] == c;
      assert plan[i] in plan && SameChange(c, plan[i]);
    }
    forall i | 0 <= i < |kept| ensures Known(slots, kept[i]) && !kept[i].attempted {
      assert kept[i] in kept;
    }
  }

  lemma StoreIsKept(slots: Slots, plan: seq<Change>, looked: seq<Change>, slot: Slot)
    requires Looked(slots, plan, looked) && Stores(plan, slot)
    ensures Stores(Kept(looked), slot)
  {
    hide Kept, Known;
    KeptMembers(looked);
    var i :| 0 <= i < |plan| && !plan[i].remove && plan[i].slot == slot;
    assert looked[i] in Kept(looked);
  }

  lemma RemovalIsDealt(slots: Slots, plan: seq<Change>, looked: seq<Change>, slot: Slot)
    requires Looked(slots, plan, looked) && DistinctSlots(looked) && Removes(plan, slot)
    ensures Dealt(slots, Kept(looked), Queries(looked), slot)
  {
    hide Kept;
    KeptMembers(looked);
    var i :| 0 <= i < |plan| && plan[i].remove && plan[i].slot == slot;
    var c := looked[i];
    assert Queries(looked)[i] == Query(slot, c.previous);
    forall q | q in Queries(looked) && q.slot == slot ensures q.answer == c.previous {
      var j :| 0 <= j < |looked| && Queries(looked)[j] == q;
    }
    if Removes(Kept(looked), slot) {
      var k :| 0 <= k < |Kept(looked)| && Kept(looked)[k].remove && Kept(looked)[k].slot == slot;
      assert Kept(looked)[k] in Kept(looked);
      var j :| 0 <= j < |looked| && looked[j] == Kept(looked)[k];
      assert j == i;
    }
    if slot in slots && slot !in Unreached(Queries(looked)) {
      assert Queries(looked)[i] in Queries(looked);
      assert c in Kept(looked);
    }
  }

  function SlotsOf(plan: seq<Change>): set<Slot> {
    set i | 0 <= i < |plan| :: plan[i].slot
  }

  predicate Done(slots: Slots, c: Change) {
    if c.remove then c.slot !in slots else c.slot in slots && slots[c.slot] == c.value
  }

  predicate Attempted(plan: seq<Change>, n: nat) {
    n <= |plan| && forall i :: 0 <= i < |plan| ==> (plan[i].attempted <==> i < n)
  }

  /** Undo, last first, everything that was attempted - whether or not it is known to have taken effect. */
  method Rollback(ring: Keyring, plan: seq<Change>, ghost before: Slots, ghost n: nat) returns (restored: bool)
    requires AllKnown(before, plan) && Attempted(plan, n)
    requires AgreeOutside(ring.slots, before, SlotsOf(plan[..n]))
    modifies ring`slots, ring`refused
    ensures ring.refused >= old(ring.refused)
    ensures restored ==> ring.slots == before
    ensures restored <==> ring.refused == old(ring.refused)
    ensures AgreeOutside(ring.slots, before, SlotsOf(plan[..n]))
  {
    hide AgreeOutside;
    restored := true;
    var k := |plan|;
    while k > 0
      invariant 0 <= k <= |plan| && ring.refused >= old(ring.refused)
      invariant restored <==> ring.refused == old(ring.refused)
      invariant AgreeOutside(ring.slots, before, SlotsOf(plan[..n]))
      invariant restored ==> AgreeOutside(ring.slots, before, SlotsOf(plan[..if k < n then k else n]))
    {
      k := k - 1;
      if plan[k].attempted {
        var ok;
        ghost var now := ring.slots;
        if plan[k].previous.Found? {
          ok := ring.Store(plan[k].slot, plan[k].previous.value);
        } else {
          ok := ring.Erase(plan[k].slot);
        }
        LastSlot(plan, k);
        SlotWithin(plan, k, n);
        Touched(ring.slots, now, before, plan[k].slot, SlotsOf(plan[..n]));
        if restored && ok {
          Repaired(ring.slots, now, before, plan[k].slot, SlotsOf(plan[..k]));
        }
        restored := ok && restored;
      }
    }
    assert SlotsOf(plan[..0]) == {};
    if restored { AgreeEverywhere(ring.slots, before); }
  }

  lemma Touched(after: Slots, now: Slots, before: Slots, slot: Slot, touched: set<Slot>)
    requires AgreeOutside(now, before, touched) && AgreeOutside(after, now, {slot}) && slot in touched
    ensures AgreeOutside(after, before, touched)
  {
    forall s | s !in touched ensures SameAt(after, before, s) {
      assert SameAt(now, before, s) && SameAt(after, now, s);
    }
  }

  lemma Repaired(after: Slots, now: Slots, before: Slots, slot: Slot, touched: set<Slot>)
    requires AgreeOutside(now, before, touched + {slot}) && AgreeOutside(after, now, {slot})
             && SameAt(after, before, slot)
    ensures AgreeOutside(after, before, touched)
  {
    forall s | s !in touched ensures SameAt(after, before, s) {
      if s != slot {
        assert SameAt(now, before, s) && SameAt(after, now, s);
      }
    }
  }

  lemma AgreeEverywhere(a: Slots, b: Slots)
    requires AgreeOutside(a, b, {})
    ensures a == b
  {
    forall s ensures s in a <==> s in b {
      assert SameAt(a, b, s);
    }
    forall s | s in a ensures a[s] == b[s] {
      assert SameAt(a, b, s);
    }
  }

  lemma LastSlot(plan: seq<Change>, k: nat)
    requires k < |plan|
    ensures SlotsOf(plan[..k + 1]) == SlotsOf(plan[..k]) + {plan[k].slot}
  {
    var all := plan[..k + 1];
    assert all[k] == plan[k];
    forall i | 0 <= i < k ensures all[i].slot in SlotsOf(plan[..k]) {
      assert all[i] == plan[..k][i];
    }
    forall i | 0 <= i < k ensures plan[..k][i].slot in SlotsOf(all) {
      assert all[i] == plan[..k][i];
    }
  }

  lemma SlotWithin(plan: seq<Change>, k: nat, n: nat)
    requires k < n <= |plan|
    ensures plan[k].slot in SlotsOf(plan[..n])
  {
    assert plan[..n][k] == plan[k];
  }

  /** Apply the changes in order; on the first refusal roll back. */
  method Apply(ring: Keyring, plan: seq<Change>) returns (ok: bool, restored: bool, tried: seq<Change>)
    requires DistinctSlots(plan) && AllKnown(ring.slots, plan) && Untried(plan)
    modifies ring`slots, ring`refused
    ensures if ok then ring.refused == old(ring.refused) else ring.refused > old(ring.refused)
    ensures !ok ==> (restored <==> ring.refused == old(ring.refused) + 1)
    ensures ok ==>
      AgreeOutside(ring.slots, old(ring.slots), SlotsOf(plan))
      && forall i :: 0 <= i < |plan| ==> Done(ring.slots, plan[i])
    ensures ok ==>
      Attempted(tried, |plan|) && |tried| == |plan| && AllKnown(old(ring.slots), tried)
      && SlotsOf(tried) == SlotsOf(plan)
    ensures !ok && restored ==> ring.slots == old(ring.slots)
    ensures !ok ==> AgreeOutside(ring.slots, old(ring.slots), SlotsOf(plan))
  {
    tried, restored := plan, true;
    var n := 0;
    while n < |plan|
      invariant 0 <= n <= |plan| == |tried| && Attempted(tried, n) && ring.refused == old(ring.refused)
      invariant forall i :: 0 <= i < |plan| ==> tried[i] == plan[i].(attempted := tried[i].attempted)
      invariant AgreeOutside(ring.slots, old(ring.slots), SlotsOf(tried[..n]))
      invariant forall i :: 0 <= i < n ==> Done(ring.slots, plan[i])
    {
      tried := tried[n := tried[n].(attempted := true)];
      if plan[n].remove {
        ok := ring.Erase(plan[n].slot);
      } else {
        ok := ring.Store(plan[n].slot, plan[n].value);
      }
      SameSlots(tried[..n + 1], plan[..n + 1]);
      LastSlot(tried, n);
      if !ok {
        restored := Rollback(ring, tried, old(ring.slots), n + 1);
        SlotsGrow(plan, n + 1);
        return;
      }
      n := n + 1;
    }
    assert tried[..n] == tried;
    SameSlots(tried, plan);
    ok := true;
  }

  lemma SameSlots(a: seq<Change>, b: seq<Change>)
    requires |a| == |b| && forall i :: 0 <= i < |a| ==> a[i].slot == b[i].slot
    ensures SlotsOf(a) == SlotsOf(b)
  {
    forall i | 0 <= i < |a| ensures a[i].slot in SlotsOf(b) && b[i].slot in SlotsOf(a) {
    }
  }

  lemma SlotsGrow(plan: seq<Change>, n: nat)
    requires n <= |plan|
    ensures SlotsOf(plan[..n]) <= SlotsOf(plan)
  {
    forall i | 0 <= i < n ensures plan[..n][i].slot in SlotsOf(plan) {
      assert plan[i].slot in SlotsOf(plan);
    }
  }

  datatype Outcome = Saved | Refused | RolledBack | NeedsRepair

  /** What the configuration's text means: what a file (or its absence) loads as, which texts parse, what writing
      settings over an existing text gives, and the digest that names a version. */
  datatype Format = Format(
    load: Option<string> -> Settings, parses: string -> bool, render: (Option<string>, Settings) -> string,
    digest: string -> string)

  /** A text that does not parse loads as the defaults, like no file at all. */
  ghost predicate DefaultsWhenBroken(f: Format) {
    forall text :: f.parses(text) || f.load(Some(text)) == f.load(None)
  }

  datatype Version = Missing | Digest(digest: string)

  /** The configuration file, and the copy of a broken one that is kept beside it for repair. */
  class ConfigFile {
    const format: Format
    var contents: Option<string>
    var rescued: Option<string>
    ghost var failures: nat

    function Stored(): Settings
      reads this
    {
      format.load(contents)
    }

    function Version(): Version
      reads this
    {
      match contents
      case None => Missing
      case Some(text) => Digest(format.digest(text))
    }

    predicate Broken()
      reads this
    {
      contents.Some? && !format.parses(contents.value)
    }

    /** `save_unlocked`. A broken file is renamed aside first; replacing the file is one rename, the last thing that can
        fail. */
    method Write(s: Settings) returns (ok: bool)
      requires DefaultsWhenBroken(format)
      modifies this
      ensures ok ==> contents == Some(format.render(if old(Broken()) then None else old(contents), s))
      ensures !ok ==> Stored() == old(Stored()) && (contents == old(contents) || (old(Broken()) && contents == None))
      ensures contents == None && old(contents).Some? ==> rescued == old(contents)
      ensures failures == old(failures) + if ok then 0 else 1
    {
      var readable: bool, replaced: bool := *, *;
      failures := failures + if readable && replaced then 0 else 1;
      if !readable { return false; }
      var kept := if Broken() then None else contents;
      if Broken() {
        var rescues: bool := *;
        if rescues {
          rescued := contents;
          contents := None;
        }
      }
      if replaced {
        contents := Some(format.render(kept, s));
      }
      ok := replaced;
    }
  }

  /** The slots this save may touch. */
  predicate Touchable(slots: Slots, persisted: Settings, s: Settings, slot: Slot) {
    ToFile(slots, persisted, s, slot) || ToForget(persisted, s, slot)
  }

  /** What a save leaves behind; `unreached` are the slots the keyring could not be asked about. */
  ghost predicate FinalState(before: Slots, after: Slots, persisted: Settings, s: Settings, unreached: set<Slot>) {
    forall slot ::
      && (ToFile(before, persisted, s, slot) ==> slot in after && after[slot] == TokenOf(s, slot.kind))
      && (ToForget(persisted, s, slot) ==>
            (slot in after <==> slot in before && slot in unreached) && (slot in after ==> SameAt(after, before, slot)))
      && (!Touchable(before, persisted, s, slot) ==> SameAt(after, before, slot))
  }

  lemma KeptIsTouchable(before: Slots, persisted: Settings, s: Settings, kept: seq<Change>)
    requires From(Planned(before, persisted, s), kept)
    ensures forall slot :: slot in SlotsOf(kept) ==> Touchable(before, persisted, s, slot)
    ensures forall i :: 0 <= i < |kept| ==>
      if kept[i].remove then ToForget(persisted, s, kept[i].slot)
      else ToFile(before, persisted, s, kept[i].slot) && kept[i].value == TokenOf(s, kept[i].slot.kind)
  {
    hide Planned, ToFile, ToForget;
    var plan := Planned(before, persisted, s);
    PlanIsExact(before, persisted, s);
    PlannedIsFresh(before, persisted, s);
    forall i | 0 <= i < |kept|
      ensures if kept[i].remove then ToForget(persisted, s, kept[i].slot)
              else ToFile(before, persisted, s, kept[i].slot) && kept[i].value == TokenOf(s, kept[i].slot.kind)
    {
      assert kept[i] in kept && ComesFrom(plan, kept[i]);
      var d :| d in plan && SameChange(kept[i], d);
      var j :| 0 <= j < |plan| && plan[j] == d;
      assert if plan[j].remove then Removes(plan, plan[j].slot) else Stores(plan, plan[j].slot);
    }
  }

  lemma AppliedIsFinal(before: Slots, after: Slots, persisted: Settings, s: Settings, kept: seq<Change>,
                       asked: seq<Query>)
    requires From(Planned(before, persisted, s), kept)
    requires forall slot :: Stores(Planned(before, persisted, s), slot) ==> Stores(kept, slot)
    requires forall slot :: Removes(Planned(before, persisted, s), slot) ==> Dealt(before, kept, asked, slot)
    requires DistinctSlots(kept)
    requires AgreeOutside(after, before, SlotsOf(kept)) && forall i :: 0 <= i < |kept| ==> Done(after, kept[i])
    ensures FinalState(before, after, persisted, s, Unreached(asked))
  {
    hide Planned, ToFile, ToForget, Unreached, Removes, Stores, DistinctSlots;
    KeptIsTouchable(before, persisted, s, kept);
    PlanIsExact(before, persisted, s);
    forall slot
      ensures ToFile(before, persisted, s, slot) ==> slot in after && after[slot] == TokenOf(s, slot.kind)
      ensures ToForget(persisted, s, slot) ==>
        && (slot in after <==> slot in before && slot in Unreached(asked))
        && (slot in after ==> SameAt(after, before, slot))
      ensures !Touchable(before, persisted, s, slot) ==> SameAt(after, before, slot)
    {
      FiledIsNotForgotten(before, persisted, s, slot);
      if ToFile(before, persisted, s, slot) {
        StoreIsDone(after, kept, slot);
      } else if Removes(kept, slot) {
        RemovalIsDone(after, kept, slot);
      } else {
        if slot in SlotsOf(kept) {
          KeptStoresOrRemoves(kept, slot);
        }
        assert SameAt(after, before, slot);
      }
    }
  }

  lemma KeptStoresOrRemoves(kept: seq<Change>, slot: Slot)
    requires slot in SlotsOf(kept) && !Removes(kept, slot)
    ensures exists i :: 0 <= i < |kept| && !kept[i].remove && kept[i].slot == slot
  {
  }

  lemma RemovalIsDone(after: Slots, kept: seq<Change>, slot: Slot)
    requires Removes(kept, slot) && forall i :: 0 <= i < |kept| ==> Done(after, kept[i])
    ensures slot !in after && exists i :: 0 <= i < |kept| && kept[i].remove && kept[i].slot == slot
  {
    var i :| 0 <= i < |kept| && kept[i].remove && kept[i].slot == slot;
    assert Done(after, kept[i]);
  }

  lemma StoreIsDone(after: Slots, kept: seq<Change>, slot: Slot)
    requires Stores(kept, slot) && forall i :: 0 <= i < |kept| ==> Done(after, kept[i])
    ensures exists i ::
      0 <= i < |kept| && !kept[i].remove && kept[i].slot == slot && slot in after && after[slot] == kept[i].value
  {
    var i :| 0 <= i < |kept| && !kept[i].remove && kept[i].slot == slot;
    assert Done(after, kept[i]);
  }

  /** Over a whole save, only looking up the changes asks about a credential that is to be forgotten. */
  lemma DealtOverall(before: Slots, persisted: Settings, s: Settings, kept: seq<Change>, planning: seq<Query>,
                     looking: seq<Query>, asked: seq<Query>, slot: Slot)
    requires NoneToForget(persisted, s, planning) && Unreached(asked) == Unreached(planning) + Unreached(looking)
    requires ToForget(persisted, s, slot) && Dealt(before, kept, looking, slot)
    ensures Dealt(before, kept, asked, slot)
  {
    hide ToForget;
  }

  /** After a plan was made, only the value to be restored under a typed token can still hinder the save. */
  lemma OnlyStoresHinder(slots: Slots, persisted: Settings, s: Settings, planning: seq<Query>, looking: seq<Query>,
                         asked: seq<Query>)
    requires !Refusable(slots, persisted, s, planning)
    requires Unreached(asked) == Unreached(planning) + Unreached(looking)
    requires forall q :: q in asked <==> q in planning || q in looking
    requires var plan := Planned(slots, persisted, s);
             forall q :: q in looking ==> Stores(plan, q.slot) || Removes(plan, q.slot)
    ensures Refusable(slots, persisted, s, asked) <==>
            exists q :: q in looking && q.answer.Unavailable? && Stores(Planned(slots, persisted, s), q.slot)
  {
    hide Planned, Stores, Removes, Lacks, Unreached, ToFile;
    PlanIsExact(slots, persisted, s);
    forall q | q in looking
      ensures Hinders(slots, persisted, s, q) <==>
              q.answer.Unavailable? && Stores(Planned(slots, persisted, s), q.slot)
    {
    }
    forall q | q in planning ensures !Hinders(slots, persisted, s, q) {
    }
  }

  /** `save_with_secrets_unlocked`. When it saves, the keyring holds exactly the typed tokens, and of the credentials
      to be forgotten exactly those the keyring could not be asked about are still there; every other slot is
      untouched. When it fails at any step the stored settings are the old ones, and if the rollback reports success
      every slot holds what it held before. It refuses, or fails, only for a reason. */
  method SaveWithSecrets(ring: Keyring, config: ConfigFile, s: Settings, valid: bool) returns (outcome: Outcome)
    requires DefaultsWhenBroken(config.format)
    modifies ring, config
    ensures old(ring.asked) <= ring.asked
    ensures outcome.Saved? ==>
      config.contents == Some(config.format.render(if old(config.Broken()) then None else old(config.contents), s))
      && FinalState(old(ring.slots), ring.slots, old(config.Stored()), s, Unreached(ring.asked[|old(ring.asked)|..]))
    ensures !outcome.Saved? ==> config.Stored() == old(config.Stored())
    ensures !outcome.Saved? && !old(config.Broken()) ==> config.contents == old(config.contents)
    ensures outcome.Refused? ==> config.contents == old(config.contents)
    ensures outcome.Refused? || outcome.RolledBack? ==> ring.slots == old(ring.slots)
    ensures outcome.NeedsRepair? ==>
      forall slot :: !Touchable(old(ring.slots), old(config.Stored()), s, slot) ==>
        SameAt(ring.slots, old(ring.slots), slot)
    ensures outcome.Refused? <==>
      !valid || Refusable(old(ring.slots), old(config.Stored()), s, ring.asked[|old(ring.asked)|..])
    ensures ring.refused >= old(ring.refused) && config.failures >= old(config.failures)
    ensures var failed := ring.refused + config.failures - old(ring.refused) - old(config.failures);
            && (outcome.Refused? || outcome.Saved? <==> failed == 0)
            && (outcome.RolledBack? <==> failed == 1)
  {
    hide Planned, ToFile, ToForget, FinalState, Refusable, Unreached, Dealt, NoneToForget, Stores, Removes;
    if !valid { return Refused; }
    var persisted := config.Stored();
    ghost var before, asked0 := ring.slots, ring.asked;
    var planned, plan := MakePlan(ring, persisted, s);
    if !planned { return Refused; }
    PlanIsExact(before, persisted, s);
    PlannedIsFresh(before, persisted, s);
    ghost var asked1 := ring.asked;
    var known, kept := LookUp(ring, plan);
    ghost var asked := ring.asked[|asked0|..];
    SliceFrom(asked0, asked1, ring.asked);
    OnlyStoresHinder(before, persisted, s, asked1[|asked0|..], ring.asked[|asked1|..], asked);
    if !known { return Refused; }
    forall slot | Removes(plan, slot) ensures Dealt(before, kept, asked, slot) {
      DealtOverall(before, persisted, s, kept, asked1[|asked0|..], ring.asked[|asked1|..], asked, slot);
    }
    KeptIsTouchable(before, persisted, s, kept);
    var applied, restored, tried := Apply(ring, kept);
    if !applied { return if restored then RolledBack else NeedsRepair; }
    AppliedIsFinal(before, ring.slots, persisted, s, kept, asked);
    var written := config.Write(s);
    if written { return Saved; }
    assert tried[..|tried|] == tried;
    restored := Rollback(ring, tried, before, |tried|);
    outcome := if restored then RolledBack else NeedsRepair;
  }

  /** `save_if_unchanged`: nothing at all happens unless the file is still the version that was reviewed. */
  method SaveIfUnchanged(ring: Keyring, config: ConfigFile, s: Settings, valid: bool, expected: Version, lockable: bool)
    returns (outcome: Outcome)
    requires DefaultsWhenBroken(config.format)
    modifies ring, config
    ensures old(ring.asked) <= ring.asked
    ensures outcome.Saved? ==>
      && old(config.Version()) == expected
      && config.contents == Some(config.format.render(if old(config.Broken()) then None else old(config.contents), s))
      && FinalState(old(ring.slots), ring.slots, old(config.Stored()), s, Unreached(ring.asked[|old(ring.asked)|..]))
    ensures !outcome.Saved? ==> config.Stored() == old(config.Stored())
    ensures !valid || !lockable || old(config.Version()) != expected ==>
      outcome.Refused? && ring.asked == old(ring.asked) && config.contents == old(config.contents)
    ensures outcome.Refused? || outcome.RolledBack? ==> ring.slots == old(ring.slots)
    ensures valid && lockable && old(config.Version()) == expected ==>
      (outcome.Refused? <==> Refusable(old(ring.slots), old(config.Stored()), s, ring.asked[|old(ring.asked)|..]))
    ensures outcome.RolledBack? <==>
            ring.refused + config.failures == old(ring.refused) + old(config.failures) + 1
  {
    if !valid || !lockable || config.Version() != expected { return Refused; }
    outcome := SaveWithSecrets(ring, config, s, valid);
  }

  // ------------------------------------------------------------------------------------ what a save means per feature

  /** What a slot that is to be forgotten looks like afterwards. */
  predicate Forgotten(before: Slots, after: Slots, slot: Slot, unreached: set<Slot>) {
    slot in after ==> slot in before && slot in unreached && after[slot] == before[slot]
  }

  /** This token was read back for another provider. */
  predicate ReadBack(before: Slots, kind: Kind, previous: string, selected: string, token: string) {
    previous != "" && previous != selected && Slot(kind, previous) in before && before[Slot(kind, previous)] == token
  }

  /** The AI credential: a typed token goes under the selected provider; switching the feature off forgets the stored
      provider's; asking to forget drops the selected one's; any other provider's stays. */
  lemma SavedAi(before: Slots, after: Slots, persisted: Settings, s: Settings, unreached: set<Slot>)
    requires FinalState(before, after, persisted, s, unreached)
    ensures var previous := if persisted.ai.enabled then persisted.ai.provider else "";
            var selected := Slot(AiToken, s.ai.provider);
            && (s.ai.enabled && !s.ai.cleared && s.ai.token != ""
                && !ReadBack(before, AiToken, previous, s.ai.provider, s.ai.token) ==>
                  selected in after && after[selected] == s.ai.token)
            && (s.ai.cleared && s.ai.provider != "" ==> Forgotten(before, after, selected, unreached))
            && (!s.ai.enabled && previous != "" ==> Forgotten(before, after, Slot(AiToken, previous), unreached))
            && (forall provider :: provider != s.ai.provider && (s.ai.enabled || provider != previous) ==>
                  SameAt(after, before, Slot(AiToken, provider)))
            && (s.ai.enabled && !s.ai.cleared
                && (s.ai.token == "" || ReadBack(before, AiToken, previous, s.ai.provider, s.ai.token)) ==>
                  SameAt(after, before, selected))
  {
    assert ToForget(persisted, s, Slot(AiToken, s.ai.provider)) <==>
           s.ai.provider != ""
             && ((!s.ai.enabled && persisted.ai.enabled && s.ai.provider == persisted.ai.provider) || s.ai.cleared);
  }

  /** The voice credential, likewise. */
  lemma SavedVoice(before: Slots, after: Slots, persisted: Settings, s: Settings, unreached: set<Slot>)
    requires FinalState(before, after, persisted, s, unreached)
    ensures var previous := if persisted.voice.enabled then persisted.voice.provider else "";
            var selected := Slot(VoiceToken, s.voice.provider);
            && (s.voice.enabled && !s.voice.cleared && s.voice.token != ""
                && !ReadBack(before, VoiceToken, previous, s.voice.provider, s.voice.token) ==>
                  selected in after && after[selected] == s.voice.token)
            && (s.voice.cleared && s.voice.provider != "" ==> Forgotten(before, after, selected, unreached))
            && (!s.voice.enabled && previous != "" ==> Forgotten(before, after, Slot(VoiceToken, previous), unreached))
            && (forall provider :: provider != s.voice.provider && (s.voice.enabled || provider != previous) ==>
                  SameAt(after, before, Slot(VoiceToken, provider)))
            && (s.voice.enabled && !s.voice.cleared
                && (s.voice.token == "" || ReadBack(before, VoiceToken, previous, s.voice.provider, s.voice.token)) ==>
                  SameAt(after, before, selected))
  {
  }

  /** The translation credential is DeepLX's, whichever backend is selected. The account's slot is never touched. */
  lemma SavedTranslation(before: Slots, after: Slots, persisted: Settings, s: Settings, unreached: set<Slot>)
    requires FinalState(before, after, persisted, s, unreached)
    ensures var slot := Slot(TranslationToken, "deeplx");
            var uses, used := s.translation.enabled && s.deeplx, persisted.translation.enabled && persisted.deeplx;
            && (uses && !s.translation.cleared && s.translation.token != "" ==>
                  slot in after && after[slot] == s.translation.token)
            && (s.translation.cleared || (!uses && used) ==> Forgotten(before, after, slot, unreached))
            && (!s.translation.cleared && (if uses then s.translation.token == "" else !used) ==>
                SameAt(after, before, slot))
            && (forall provider :: provider != "deeplx" ==> SameAt(after, before, Slot(TranslationToken, provider)))
            && (forall provider :: SameAt(after, before, Slot(AccountToken, provider)))
  {
    assert |"deeplx"| == 6;
  }

  // ---------------------------------------------------------------------------------------- what a save cannot promise

  /** A save forgets everything it was asked to forget if and only if the keyring could be asked about every such slot
      that holds something. */
  lemma ForgetsAllIff(before: Slots, after: Slots, persisted: Settings, s: Settings, unreached: set<Slot>)
    requires FinalState(before, after, persisted, s, unreached)
    ensures (forall slot :: ToForget(persisted, s, slot) ==> slot !in after) <==>
            (forall slot :: ToForget(persisted, s, slot) && slot in before ==> slot !in unreached)
  {
    hide ToForget, ToFile;
  }

  /** Switching the AI feature off while the keyring is silent: the one planned removal is asked about, unanswered and
      dropped, nothing is left to apply, and the credential is still there after the save. */
  lemma SilentKeyringKeepsCredential() returns (before: Slots, persisted: Settings, s: Settings, looked: seq<Change>)
    ensures Planned(before, persisted, s) == [Dropped(Slot(AiToken, "p"))] && Slot(AiToken, "p") in before
    ensures Looked(before, Planned(before, persisted, s), looked) && StoresAnswered(looked) && Kept(looked) == []
    ensures FinalState(before, before, persisted, s, Unreached(Queries(looked)))
    ensures ToForget(persisted, s, Slot(AiToken, "p"))
  {
    var slot := Slot(AiToken, "p");
    var off := Feature(false, "", "", false);
    before := map[slot := "t"];
    persisted := Settings(Feature(true, "p", "", false), off, false, off);
    s := Settings(Feature(false, "p", "", false), off, false, off);
    looked := [Dropped(slot).(previous := Unavailable)];
    OnlyRemoval(before, persisted, s);
    assert Queries(looked)[0] == Query(slot, Unavailable);
    assert slot in Unreached(Queries(looked));
    assert looked[..0] == [];
    forall x ensures !ToFile(before, persisted, s, x) && (ToForget(persisted, s, x) <==> x == slot) {
    }
  }

  lemma OnlyRemoval(before: Slots, persisted: Settings, s: Settings)
    requires persisted ==
      Settings(Feature(true, "p", "", false), Feature(false, "", "", false), false, Feature(false, "", "", false))
    requires s ==
      Settings(Feature(false, "p", "", false), Feature(false, "", "", false), false, Feature(false, "", "", false))
    ensures Planned(before, persisted, s) == [Dropped(Slot(AiToken, "p"))]
  {
    assert StorePlan(before, persisted, s) == [];
    assert [] + [Dropped(Slot(AiToken, "p"))] == [Dropped(Slot(AiToken, "p"))];
  }
}
