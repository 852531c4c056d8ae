/**
 * Which role each audio path plays (interfaces/audio/mainline/routing/DeviceInventory.cpp).
 */
module AudioRoles {
  import opened Common

  datatype Role =
    | Speaker | Earpiece | Headphones | Headset | LineOut | Hdmi | Spdif | BusOut
    | Mic | HeadsetMic | BusIn

  predicate IsInputRole(role: Role) { role.Mic? || role.HeadsetMic? || role.BusIn? }

  predicate IsBus(role: Role) { role.BusOut? || role.BusIn? }

  /** Roles of external devices, of which the framework connects one each. */
  predicate IsExternalRole(role: Role) {
    role.Headphones? || role.Headset? || role.LineOut? || role.Hdmi? || role.Spdif? || role.HeadsetMic?
  }

  /** The sample formats that are probed for: those Android understands. */
  datatype Format = S16 | Float | S24Packed | S24 | S32 | U8

  datatype Capabilities = Capabilities(formats: set<Format>, rates: set<nat>, minChannels: nat, maxChannels: nat)

  const FALLBACK := Capabilities({S16}, {44100, 48000}, 1, 2)

  datatype Endpoint = Endpoint(
    role: Role, isInput: bool, card: int, priority: int, pcm: string,
    hdmiHead: bool, isNull: bool, caps: Capabilities)

  // --- Sorting -------------------------------------------------------------------------

  /** Primary card first, then higher priority. */
  predicate Before(a: Endpoint, b: Endpoint, primary: int) {
    if (a.card == primary) != (b.card == primary) then a.card == primary else a.priority > b.priority
  }

  /** Behind everything that is not after it, so that equals keep their order. */
  function Insert(sorted: seq<Endpoint>, e: Endpoint, primary: int): (r: seq<Endpoint>)
    ensures multiset(r) == multiset(sorted) + multiset{e}
  {
    if sorted == [] || !Before(e, sorted[|sorted| - 1], primary) then sorted + [e]
    else
      var n := |sorted| - 1;
      assert sorted == sorted[..n] + [sorted[n]];
      Insert(sorted[..n], e, primary) + [sorted[n]]
  }

  function StableSort(s: seq<Endpoint>, primary: int): (r: seq<Endpoint>)
    ensures multiset(r) == multiset(s)
  {
    if s == [] then [] else
      assert s == s[..|s| - 1] + [s[|s| - 1]];
      Insert(StableSort(s[..|s| - 1], primary), s[|s| - 1], primary)
  }

  // --- One role each -------------------------------------------------------------------

  /** Which roles are taken, and which bus outputs are HDMI heads beyond the first. */
  datatype Taken = Taken(roles: set<Role>, extraHeads: set<nat>)

  function BusRole(isInput: bool): Role { if isInput then BusIn else BusOut }

  /** The role an endpoint keeps, given the roles taken before it. */
  function KeptRole(e: Endpoint, taken: set<Role>, primary: int): Role {
    match e.role
    case Speaker => if e.card == primary && Speaker !in taken then Speaker else BusOut
    case Earpiece => if e.card == primary && Earpiece !in taken then Earpiece else BusOut
    case Mic => if e.card == primary && Mic !in taken then Mic else BusIn
    case BusOut => BusOut
    case BusIn => BusIn
    case external => if external in taken then BusRole(e.isInput) else external
  }

  function Demote(endpoints: seq<Endpoint>, primary: int): (r: (seq<Endpoint>, Taken))
    ensures |r.0| == |endpoints|
  {
    if endpoints == [] then ([], Taken({}, {})) else
      var n := |endpoints| - 1;
      var (before, taken) := Demote(endpoints[..n], primary);
      var e := endpoints[n];
      var role := KeptRole(e, taken.roles, primary);
      (before + [e.(role := role)],
       Taken(if IsBus(role) then taken.roles else taken.roles + {role},
             if e.role == Hdmi && role != Hdmi then taken.extraHeads + {n} else taken.extraHeads))
  }

  // --- Promotion -----------------------------------------------------------------------

  predicate Eligible(endpoints: seq<Endpoint>, i: nat, isInput: bool, wanted: Role, onlyCard: Option<int>, extra: set<nat>)
    requires i < |endpoints|
  {
    endpoints[i].isInput == isInput && endpoints[i].role == wanted &&
    (onlyCard.Some? ==> endpoints[i].card == onlyCard.value) && i !in extra
  }

  function FirstEligible(endpoints: seq<Endpoint>, from: nat, isInput: bool, wanted: Role,
                         onlyCard: Option<int>, extra: set<nat>)
    : (r: Option<nat>)
    requires from <= |endpoints|
    ensures r.Some? ==> r.value < |endpoints| && Eligible(endpoints, r.value, isInput, wanted, onlyCard, extra)
    ensures r.None? ==> forall i :: from <= i < |endpoints| ==> !Eligible(endpoints, i, isInput, wanted, onlyCard, extra)
    decreases |endpoints| - from
  {
    if from == |endpoints| then None
    else if Eligible(endpoints, from, isInput, wanted, onlyCard, extra) then Some(from)
    else FirstEligible(endpoints, from + 1, isInput, wanted, onlyCard, extra)
  }

  function FirstWanted(endpoints: seq<Endpoint>, isInput: bool, preference: seq<Role>, onlyCard: Option<int>, extra: set<nat>)
    : (r: Option<nat>)
    ensures r.Some? ==> r.value < |endpoints| && endpoints[r.value].role in preference
    ensures r.Some? ==> Eligible(endpoints, r.value, isInput, endpoints[r.value].role, onlyCard, extra)
  {
    if preference == [] then None else
      match FirstEligible(endpoints, 0, isInput, preference[0], onlyCard, extra)
      case Some(i) => Some(i)
      case None => FirstWanted(endpoints, isInput, preference[1..], onlyCard, extra)
  }

  /** The primary card goes before any other, then the order of preference, then that of the endpoints. */
  function Choice(endpoints: seq<Endpoint>, isInput: bool, preference: seq<Role>, primary: int, extra: set<nat>)
    : (r: Option<nat>)
    ensures r.Some? ==> r.value < |endpoints| && endpoints[r.value].role in preference
    ensures r.Some? ==> Eligible(endpoints, r.value, isInput, endpoints[r.value].role, None, extra)
  {
    match FirstWanted(endpoints, isInput, preference, Some(primary), extra)
    case Some(i) => Some(i)
    case None => FirstWanted(endpoints, isInput, preference, None, extra)
  }

  /** Changes a bus path's role in place; an external one stays and a copy plays the role. */
  function Promote(endpoints: seq<Endpoint>, choice: Option<nat>, target: Role): (seq<Endpoint>, seq<Endpoint>)
    requires choice.Some? ==> choice.value < |endpoints|
  {
    match choice
    case None => (endpoints, [])
    case Some(i) =>
      var promoted := endpoints[i].(role := target);
      if IsExternalRole(endpoints[i].role) then (endpoints, [promoted]) else (endpoints[i := promoted], [])
  }

  const SPEAKER_PREFERENCE := [LineOut, BusOut, Headphones, Headset, Spdif]
  const MIC_PREFERENCE := [BusIn, HeadsetMic]

  function PromoteMissing(endpoints: seq<Endpoint>, target: Role, primary: int, taken: Taken): (seq<Endpoint>, seq<Endpoint>) {
    if target in taken.roles then (endpoints, []) else
      var preference := if target == Mic then MIC_PREFERENCE else SPEAKER_PREFERENCE;
      Promote(endpoints, Choice(endpoints, target == Mic, preference, primary, taken.extraHeads), target)
  }

  function Assigned(found: seq<Endpoint>, primary: int): seq<Endpoint> {
    var (endpoints, taken) := Demote(StableSort(found, primary), primary);
    var (spoken, speaker) := PromoteMissing(endpoints, Speaker, primary, taken);
    var (heard, mic) := PromoteMissing(spoken, Mic, primary, taken);
    heard + speaker + mic
  }

  function NullEndpoint(role: Role): Endpoint {
    Endpoint(role, role == Mic, -1, 0, "null", false, true, FALLBACK)
  }

  predicate Has(endpoints: seq<Endpoint>, role: Role) {
    exists i :: 0 <= i < |endpoints| && endpoints[i].role == role
  }

  function WithNull(endpoints: seq<Endpoint>, nullMic: bool): seq<Endpoint> {
    endpoints +
    (if Has(endpoints, Speaker) then [] else [NullEndpoint(Speaker)]) +
    (if Has(endpoints, Mic) || !nullMic then [] else [NullEndpoint(Mic)])
  }

  /** What discovery ends up with. */
  function Inventory(found: seq<Endpoint>, primary: int, nullMic: bool): seq<Endpoint> {
    WithNull(Assigned(found, primary), nullMic)
  }

  // --- How often a role is played ------------------------------------------------------

  function Count(endpoints: seq<Endpoint>, role: Role): nat {
    if endpoints == [] then 0
    else Count(endpoints[..|endpoints| - 1], role) + if endpoints[|endpoints| - 1].role == role then 1 else 0
  }

  lemma {:induction false} CountConcat(a: seq<Endpoint>, b: seq<Endpoint>, role: Role)
    ensures Count(a + b, role) == Count(a, role) + Count(b, role)
  {
    if b == [] {
      assert a + b == a;
    } else {
      assert (a + b)[..|a + b| - 1] == a + b[..|b| - 1];
      CountConcat(a, b[..|b| - 1], role);
    }
  }

  lemma {:induction false} CountPositive(endpoints: seq<Endpoint>, role: Role)
    ensures Count(endpoints, role) > 0 <==> Has(endpoints, role)
  {
    if endpoints != [] {
      var n := |endpoints| - 1;
      CountPositive(endpoints[..n], role);
      if Has(endpoints[..n], role) {
        var i :| 0 <= i < n && endpoints[..n][i].role == role;
        assert endpoints[i].role == role;
      }
      if endpoints[n].role != role && Has(endpoints, role) {
        var i :| 0 <= i < |endpoints| && endpoints[i].role == role;
        assert endpoints[..n][i].role == role;
      }
    }
  }

  lemma {:induction false} CountUpdate(endpoints: seq<Endpoint>, i: nat, e: Endpoint, role: Role)
    requires i < |endpoints|
    ensures Count(endpoints[i := e], role) ==
      Count(endpoints, role) - (if endpoints[i].role == role then 1 else 0) + (if e.role == role then 1 else 0)
  {
    var n := |endpoints| - 1;
    if i < n {
      CountUpdate(endpoints[..n], i, e, role);
      assert endpoints[i := e][..n] == endpoints[..n][i := e];
    } else {
      assert endpoints[i := e][..n] == endpoints[..n];
    }
  }

  // --- What discovery may assume and what it guarantees --------------------------------

  /** As collected from the cards: direction and head flag follow from the role. */
  predicate Collected(e: Endpoint) {
    e.isInput == IsInputRole(e.role) && (e.hdmiHead <==> e.role == Hdmi)
  }

  /** Once roles are given out: directions still match, and a head is an HDMI template or a bus output. */
  predicate Sane(e: Endpoint) {
    e.isInput == IsInputRole(e.role) && (e.role == Hdmi ==> e.hdmiHead) &&
    (e.hdmiHead ==> e.role == Hdmi || e.role == BusOut)
  }

  ghost predicate AllSane(endpoints: seq<Endpoint>) {
    forall i :: 0 <= i < |endpoints| ==> Sane(endpoints[i])
  }

  /** Exactly the taken roles are played, each once; extra heads are the heads that are bus outputs. */
  ghost predicate DemotedRight(endpoints: seq<Endpoint>, taken: Taken) {
    AllSane(endpoints) &&
    (forall role :: !IsBus(role) ==> Count(endpoints, role) == if role in taken.roles then 1 else 0) &&
    (forall role :: role in taken.roles ==> !IsBus(role)) &&
    (forall i :: i in taken.extraHeads ==> i < |endpoints|) &&
    (forall i :: 0 <= i < |endpoints| && endpoints[i].hdmiHead && endpoints[i].role == BusOut ==> i in taken.extraHeads)
  }

  lemma {:induction false} DemoteRight(endpoints: seq<Endpoint>, primary: int)
    requires forall i :: 0 <= i < |endpoints| ==> Collected(endpoints[i])
    ensures DemotedRight(Demote(endpoints, primary).0, Demote(endpoints, primary).1)
  {
    if endpoints != [] {
      var n := |endpoints| - 1;
      DemoteRight(endpoints[..n], primary);
      var (before, taken) := Demote(endpoints[..n], primary);
      DemoteStep(before, taken, endpoints[n], primary);
    }
  }

  lemma DemoteStep(before: seq<Endpoint>, taken: Taken, e: Endpoint, primary: int)
    requires DemotedRight(before, taken) && Collected(e)
    ensures
      var role := KeptRole(e, taken.roles, primary);
      DemotedRight(before + [e.(role := role)],
        Taken(if IsBus(role) then taken.roles else taken.roles + {role},
              if e.role == Hdmi && role != Hdmi then taken.extraHeads + {|before|} else taken.extraHeads))
  {
    var role := KeptRole(e, taken.roles, primary);
    var after := before + [e.(role := role)];
    assert after[..|before|] == before;
  }

  lemma PromoteKeeps(endpoints: seq<Endpoint>, choice: Option<nat>, target: Role)
    requires AllSane(endpoints) && !IsBus(target) && Count(endpoints, target) == 0
    requires choice.Some? ==> choice.value < |endpoints| && !endpoints[choice.value].hdmiHead
    requires choice.Some? ==> endpoints[choice.value].isInput == IsInputRole(target) && target != Hdmi
    requires choice.Some? ==> IsBus(endpoints[choice.value].role) || IsExternalRole(endpoints[choice.value].role)
    ensures
      var (after, copies) := Promote(endpoints, choice, target);
      AllSane(after) && AllSane(copies) &&
      forall role :: !IsBus(role) ==>
        Count(after, role) + Count(copies, role) ==
          Count(endpoints, role) + if role == target && choice.Some? then 1 else 0
  {
    if choice.Some? {
      var promoted := endpoints[choice.value].(role := target);
      forall role ensures Count([promoted], role) == if role == target then 1 else 0 {
        assert [promoted][..0] == [];
      }
      forall role {
        CountUpdate(endpoints, choice.value, promoted, role);
      }
    }
  }

  lemma PromoteSpeaker(endpoints: seq<Endpoint>, primary: int, taken: Taken)
    requires DemotedRight(endpoints, taken)
    ensures
      var (after, copies) := PromoteMissing(endpoints, Speaker, primary, taken);
      AllSane(after) && AllSane(copies) && Count(after, Speaker) + Count(copies, Speaker) <= 1 &&
      forall role :: !IsBus(role) && role != Speaker ==>
        Count(after, role) + Count(copies, role) == Count(endpoints, role)
  {
    if Speaker !in taken.roles {
      var choice := Choice(endpoints, false, SPEAKER_PREFERENCE, primary, taken.extraHeads);
      PromoteKeeps(endpoints, choice, Speaker);
    }
  }

  lemma PromoteMic(endpoints: seq<Endpoint>, primary: int, taken: Taken)
    requires AllSane(endpoints) && Count(endpoints, Mic) == if Mic in taken.roles then 1 else 0
    ensures
      var (after, copies) := PromoteMissing(endpoints, Mic, primary, taken);
      AllSane(after) && AllSane(copies) && Count(after, Mic) + Count(copies, Mic) <= 1 &&
      forall role :: !IsBus(role) && role != Mic ==>
        Count(after, role) + Count(copies, role) == Count(endpoints, role)
  {
    if Mic !in taken.roles {
      PromoteKeeps(endpoints, Choice(endpoints, true, MIC_PREFERENCE, primary, taken.extraHeads), Mic);
    }
  }

  lemma CopiesAreSpeakers(endpoints: seq<Endpoint>, primary: int, taken: Taken, target: Role)
    ensures forall role :: role != target ==> Count(PromoteMissing(endpoints, target, primary, taken).1, role) == 0
  {
    var copies := PromoteMissing(endpoints, target, primary, taken).1;
    if copies != [] {
      assert copies[..0] == [];
    }
  }

  lemma SortedCollected(found: seq<Endpoint>, primary: int)
    requires forall i :: 0 <= i < |found| ==> Collected(found[i])
    ensures forall i :: 0 <= i < |StableSort(found, primary)| ==> Collected(StableSort(found, primary)[i])
  {
    var sorted := StableSort(found, primary);
    forall i | 0 <= i < |sorted| ensures Collected(sorted[i]) {
      assert sorted[i] in multiset(sorted);
      assert sorted[i] in found;
    }
  }

  /** Both promotions, one after the other, and the copies they add. */
  lemma PromotedRight(endpoints: seq<Endpoint>, primary: int, taken: Taken)
    requires DemotedRight(endpoints, taken)
    ensures
      var (spoken, speaker) := PromoteMissing(endpoints, Speaker, primary, taken);
      var (heard, mic) := PromoteMissing(spoken, Mic, primary, taken);
      AllSane(heard + speaker + mic) &&
      forall role :: !IsBus(role) ==> Count(heard, role) + Count(speaker, role) + Count(mic, role) <= 1
  {
    PromoteSpeaker(endpoints, primary, taken);
    CopiesAreSpeakers(endpoints, primary, taken, Speaker);
    var spoken := PromoteMissing(endpoints, Speaker, primary, taken).0;
    PromoteMic(spoken, primary, taken);
    CopiesAreSpeakers(spoken, primary, taken, Mic);
  }

  lemma AssignedRight(found: seq<Endpoint>, primary: int)
    requires forall i :: 0 <= i < |found| ==> Collected(found[i])
    ensures AllSane(Assigned(found, primary))
    ensures forall role :: !IsBus(role) ==> Count(Assigned(found, primary), role) <= 1
  {
    var sorted := StableSort(found, primary);
    SortedCollected(found, primary);
    DemoteRight(sorted, primary);
    var (endpoints, taken) := Demote(sorted, primary);
    PromotedRight(endpoints, primary, taken);
    var (spoken, speaker) := PromoteMissing(endpoints, Speaker, primary, taken);
    var (heard, mic) := PromoteMissing(spoken, Mic, primary, taken);
    forall role ensures Count(heard + speaker + mic, role) == Count(heard, role) + Count(speaker, role) + Count(mic, role) {
      CountConcat(heard + speaker, mic, role);
      CountConcat(heard, speaker, role);
    }
  }

  lemma NullsAdded(endpoints: seq<Endpoint>, nullMic: bool, role: Role)
    ensures Count(WithNull(endpoints, nullMic), role) ==
      Count(endpoints, role) +
      (if role == Speaker && Count(endpoints, Speaker) == 0 then 1 else 0) +
      (if role == Mic && Count(endpoints, Mic) == 0 && nullMic then 1 else 0)
  {
    var a := if Has(endpoints, Speaker) then [] else [NullEndpoint(Speaker)];
    var b := if Has(endpoints, Mic) || !nullMic then [] else [NullEndpoint(Mic)];
    CountPositive(endpoints, Speaker);
    CountPositive(endpoints, Mic);
    assert [NullEndpoint(Speaker)][..0] == [] && [NullEndpoint(Mic)][..0] == [];
    CountConcat(endpoints + a, b, role);
    CountConcat(endpoints, a, role);
  }

  /**
   * Whatever the cards offer, there is exactly one speaker, and one microphone if a null one may
   * stand in; every other role but the busses is played at most once, and no HDMI head is a speaker.
   */
  lemma RolesRight(found: seq<Endpoint>, primary: int, nullMic: bool)
    requires forall i :: 0 <= i < |found| ==> Collected(found[i])
    ensures
      var all := Inventory(found, primary, nullMic);
      Count(all, Speaker) == 1 && (nullMic ==> Count(all, Mic) == 1) &&
      (forall role :: !IsBus(role) ==> Count(all, role) <= 1) &&
      (forall i :: 0 <= i < |all| ==> all[i].isInput == IsInputRole(all[i].role)) &&
      (forall i :: 0 <= i < |all| && all[i].hdmiHead ==> all[i].role != Speaker)
  {
    AssignedRight(found, primary);
    forall role
      ensures Count(Inventory(found, primary, nullMic), role) ==
        Count(Assigned(found, primary), role) +
        (if role == Speaker && Count(Assigned(found, primary), Speaker) == 0 then 1 else 0) +
        (if role == Mic && Count(Assigned(found, primary), Mic) == 0 && nullMic then 1 else 0)
    {
      NullsAdded(Assigned(found, primary), nullMic, role);
    }
    NullsSane(Assigned(found, primary), nullMic);
  }

  lemma NullsSane(endpoints: seq<Endpoint>, nullMic: bool)
    requires AllSane(endpoints)
    ensures AllSane(WithNull(endpoints, nullMic))
  {
  }

  // --- Which path is promoted ----------------------------------------------------------

  /** May be promoted: a path of the direction with a wanted role, and no extra HDMI head. */
  predicate Promotable(endpoints: seq<Endpoint>, i: nat, isInput: bool, preference: seq<Role>, extra: set<nat>)
    requires i < |endpoints|
  {
    endpoints[i].isInput == isInput && endpoints[i].role in preference && i !in extra
  }

  /** a comes before b: by preference, then in the order of the endpoints. */
  predicate Preferred(endpoints: seq<Endpoint>, a: nat, b: nat, preference: seq<Role>)
    requires a < |endpoints| && b < |endpoints|
    requires endpoints[a].role in preference && endpoints[b].role in preference
  {
    Rank(preference, endpoints[a].role) < Rank(preference, endpoints[b].role) ||
    (endpoints[a].role == endpoints[b].role && a <= b)
  }

  function Rank(preference: seq<Role>, role: Role): (k: nat)
    requires role in preference
    ensures k < |preference| && preference[k] == role
  {
    if preference[0] == role then 0 else 1 + Rank(preference[1..], role)
  }

  lemma {:induction false} FirstIsFirst(endpoints: seq<Endpoint>, from: nat, isInput: bool, wanted: Role,
                                        onlyCard: Option<int>, extra: set<nat>, i: nat)
    requires from <= i < |endpoints| && Eligible(endpoints, i, isInput, wanted, onlyCard, extra)
    ensures
      var r := FirstEligible(endpoints, from, isInput, wanted, onlyCard, extra);
      r.Some? && r.value <= i
    decreases |endpoints| - from
  {
    if from < i && !Eligible(endpoints, from, isInput, wanted, onlyCard, extra) {
      FirstIsFirst(endpoints, from + 1, isInput, wanted, onlyCard, extra, i);
    }
  }

  lemma {:induction false} WantedIsPreferred(endpoints: seq<Endpoint>, isInput: bool, preference: seq<Role>,
                                             onlyCard: Option<int>, extra: set<nat>, i: nat)
    requires i < |endpoints| && endpoints[i].role in preference
    requires Eligible(endpoints, i, isInput, endpoints[i].role, onlyCard, extra)
    ensures
      var r := FirstWanted(endpoints, isInput, preference, onlyCard, extra);
      r.Some? && Preferred(endpoints, r.value, i, preference)
  {
    var first := FirstEligible(endpoints, 0, isInput, preference[0], onlyCard, extra);
    if endpoints[i].role == preference[0] {
      FirstIsFirst(endpoints, 0, isInput, preference[0], onlyCard, extra, i);
    } else if first.None? {
      WantedIsPreferred(endpoints, isInput, preference[1..], onlyCard, extra, i);
      var r := FirstWanted(endpoints, isInput, preference[1..], onlyCard, extra);
      assert endpoints[r.value].role != preference[0] by {
        assert !Eligible(endpoints, r.value, isInput, preference[0], onlyCard, extra);
      }
    }
  }

  /**
   * The choice is exact: some path is promoted iff one may be, one of the primary card if there is
   * any, and of those the most preferred and then the first.
   */
  lemma ChoiceIsBest(endpoints: seq<Endpoint>, isInput: bool, preference: seq<Role>, primary: int, extra: set<nat>, i: nat)
    requires i < |endpoints| && Promotable(endpoints, i, isInput, preference, extra)
    ensures
      var r := Choice(endpoints, isInput, preference, primary, extra);
      r.Some? && Promotable(endpoints, r.value, isInput, preference, extra) &&
      (endpoints[i].card == primary ==> endpoints[r.value].card == primary) &&
      (endpoints[i].card == primary || endpoints[r.value].card != primary ==> Preferred(endpoints, r.value, i, preference))
  {
    if endpoints[i].card == primary {
      WantedIsPreferred(endpoints, isInput, preference, Some(primary), extra, i);
    }
    WantedIsPreferred(endpoints, isInput, preference, None, extra, i);
  }

  /** No real path plays a role that is missing exactly when none may be promoted to it. */
  lemma MissingIffNonePromotable(endpoints: seq<Endpoint>, primary: int, taken: Taken)
    requires DemotedRight(endpoints, taken) && Speaker !in taken.roles
    ensures
      var (after, copies) := PromoteMissing(endpoints, Speaker, primary, taken);
      Count(after, Speaker) + Count(copies, Speaker) == 0 <==>
        forall i :: 0 <= i < |endpoints| ==> !Promotable(endpoints, i, false, SPEAKER_PREFERENCE, taken.extraHeads)
  {
    var choice := Choice(endpoints, false, SPEAKER_PREFERENCE, primary, taken.extraHeads);
    PromoteKeeps(endpoints, choice, Speaker);
    if exists i :: 0 <= i < |endpoints| && Promotable(endpoints, i, false, SPEAKER_PREFERENCE, taken.extraHeads) {
      var i :| 0 <= i < |endpoints| && Promotable(endpoints, i, false, SPEAKER_PREFERENCE, taken.extraHeads);
      ChoiceIsBest(endpoints, false, SPEAKER_PREFERENCE, primary, taken.extraHeads, i);
    }
    if choice.Some? {
      assert Promotable(endpoints, choice.value, false, SPEAKER_PREFERENCE, taken.extraHeads);
    }
  }

  // --- The order of the primary card and of priorities ---------------------------------

  ghost predicate Sorted(s: seq<Endpoint>, primary: int) {
    forall i, j :: 0 <= i < j < |s| ==> !Before(s[j], s[i], primary)
  }

  lemma {:induction false} InsertSorts(s: seq<Endpoint>, e: Endpoint, primary: int)
    requires Sorted(s, primary)
    ensures Sorted(Insert(s, e, primary), primary)
  {
    if s != [] && Before(e, s[|s| - 1], primary) {
      var n := |s| - 1;
      InsertSorts(s[..n], e, primary);
      LastStays(s[..n], s[n], e, Insert(s[..n], e, primary), primary);
      assert s == s[..n] + [s[n]];
    } else if s != [] {
      assert forall i :: 0 <= i < |s| ==> !Before(e, s[i], primary);
    }
  }

  lemma LastStays(front: seq<Endpoint>, last: Endpoint, e: Endpoint, rest: seq<Endpoint>, primary: int)
    requires Sorted(front + [last], primary) && Sorted(rest, primary) && Before(e, last, primary)
    requires multiset(rest) == multiset(front) + multiset{e}
    ensures Sorted(rest + [last], primary)
  {
    forall i | 0 <= i < |rest| ensures !Before(last, rest[i], primary) {
      assert rest[i] in multiset(rest);
      if rest[i] != e {
        var j :| 0 <= j < |front| && front[j] == rest[i];
        assert (front + [last])[j] == rest[i] && (front + [last])[|front|] == last;
      }
    }
  }

  lemma {:induction false} StableSortSorts(s: seq<Endpoint>, primary: int)
    ensures Sorted(StableSort(s, primary), primary)
  {
    if s != [] {
      StableSortSorts(s[..|s| - 1], primary);
      InsertSorts(StableSort(s[..|s| - 1], primary), s[|s| - 1], primary);
    }
  }

  /** A role is kept by the first endpoint in that order that may have it: by the highest priority of its card. */
  lemma {:induction false} FirstKeepsRole(sorted: seq<Endpoint>, primary: int, i: nat)
    requires i < |sorted| && !IsBus(sorted[i].role)
    ensures
      var kept := Demote(sorted, primary).0[i].role;
      var mayHave := IsExternalRole(sorted[i].role) || sorted[i].card == primary;
      (kept == sorted[i].role <==>
         mayHave && forall j :: 0 <= j < i && sorted[j].role == sorted[i].role ==>
           !(IsExternalRole(sorted[j].role) || sorted[j].card == primary)) &&
      (kept != sorted[i].role ==> IsBus(kept))
  {
    var n := |sorted| - 1;
    if i < n {
      FirstKeepsRole(sorted[..n], primary, i);
    } else {
      TakenBefore(sorted[..n], primary, sorted[n].role);
      assert forall j :: 0 <= j < n ==> sorted[..n][j] == sorted[j];
    }
  }

  lemma {:induction false} TakenBefore(s: seq<Endpoint>, primary: int, role: Role)
    requires !IsBus(role)
    ensures role in Demote(s, primary).1.roles <==>
      exists j :: 0 <= j < |s| && s[j].role == role && (IsExternalRole(role) || s[j].card == primary)
  {
    if s != [] {
      var n := |s| - 1;
      TakenBefore(s[..n], primary, role);
      assert forall j :: 0 <= j < n ==> s[..n][j] == s[j];
    }
  }

  // --- The class -----------------------------------------------------------------------

  class DeviceInventory {
    const primaryCard: int
    var endpoints: seq<Endpoint>

    constructor (primaryCard: int, endpoints: seq<Endpoint>)
      ensures this.primaryCard == primaryCard && this.endpoints == endpoints
    {
      this.primaryCard := primaryCard;
      this.endpoints := endpoints;
    }

    /** The switch over the role: the role that is kept, and the flags with it taken. */
    method KeepOrDemote(e: Endpoint, speaker: bool, earpiece: bool, mic: bool, templates: set<Role>)
      returns (role: Role, speaker': bool, earpiece': bool, mic': bool, templates': set<Role>)
      requires forall r :: r in templates ==> IsExternalRole(r)
      ensures forall r :: r in templates' ==> IsExternalRole(r)
      ensures
        var before := TakenRoles(speaker, earpiece, mic, templates);
        role == KeptRole(e, before, primaryCard) &&
        TakenRoles(speaker', earpiece', mic', templates') == if IsBus(role) then before else before + {role}
    {
      var onPrimary := e.card == primaryCard;
      role, speaker', earpiece', mic', templates' := e.role, speaker, earpiece, mic, templates;
      match e.role {
        case Speaker =>
          if onPrimary && !speaker { speaker' := true; } else { role := BusOut; }
        case Earpiece =>
          if onPrimary && !earpiece { earpiece' := true; } else { role := BusOut; }
        case Mic =>
          if onPrimary && !mic { mic' := true; } else { role := BusIn; }
        case BusOut =>
        case BusIn =>
        case _ =>
          if e.role in templates {
            role := if e.isInput then BusIn else BusOut;
          } else {
            templates' := templates + {e.role};
          }
      }
    }

    /** The loop over the sorted endpoints that leaves one of each role. */
    method DemoteRoles() returns (taken: Taken)
      modifies this
      ensures (endpoints, taken) == Demote(old(endpoints), primaryCard)
    {
      var haveSpeaker, haveEarpiece, haveMic := false, false, false;
      var usedTemplates: set<Role> := {};
      var extraHdmiHeads: set<nat> := {};
      ghost var all := endpoints;
      var i := 0;
      while i < |endpoints|
        invariant 0 <= i <= |endpoints| == |all|
        invariant endpoints[..i] == Demote(all[..i], primaryCard).0 && endpoints[i..] == all[i..]
        invariant forall role :: role in usedTemplates ==> IsExternalRole(role)
        invariant Demote(all[..i], primaryCard).1 ==
          Taken(TakenRoles(haveSpeaker, haveEarpiece, haveMic, usedTemplates), extraHdmiHeads)
      {
        var e := endpoints[i];
        var role;
        role, haveSpeaker, haveEarpiece, haveMic, usedTemplates :=
          KeepOrDemote(e, haveSpeaker, haveEarpiece, haveMic, usedTemplates);
        if e.role == Hdmi && role != Hdmi {
          extraHdmiHeads := extraHdmiHeads + {i};
        }
        OneMoreDemoted(all, endpoints, i, role, primaryCard);
        endpoints := endpoints[i := e.(role := role)];
        i := i + 1;
      }
      assert all[..i] == all && endpoints[..i] == endpoints;
      taken := Taken(TakenRoles(haveSpeaker, haveEarpiece, haveMic, usedTemplates), extraHdmiHeads);
    }

    method FindEligible(isInput: bool, wanted: Role, onlyCard: Option<int>, extra: set<nat>) returns (r: Option<nat>)
      ensures r == FirstEligible(endpoints, 0, isInput, wanted, onlyCard, extra)
    {
      var i := 0;
      while i < |endpoints|
        invariant 0 <= i <= |endpoints|
        invariant FirstEligible(endpoints, i, isInput, wanted, onlyCard, extra) ==
          FirstEligible(endpoints, 0, isInput, wanted, onlyCard, extra)
      {
        if Eligible(endpoints, i, isInput, wanted, onlyCard, extra) {
          return Some(i);
        }
        i := i + 1;
      }
      r := None;
    }

    method FindWanted(isInput: bool, preference: seq<Role>, onlyCard: Option<int>, extra: set<nat>) returns (r: Option<nat>)
      ensures r == FirstWanted(endpoints, isInput, preference, onlyCard, extra)
    {
      var i := 0;
      while i < |preference|
        invariant 0 <= i <= |preference|
        invariant FirstWanted(endpoints, isInput, preference[i..], onlyCard, extra) ==
          FirstWanted(endpoints, isInput, preference, onlyCard, extra)
      {
        r := FindEligible(isInput, preference[i], onlyCard, extra);
        if r.Some? {
          return;
        }
        i := i + 1;
      }
      r := None;
    }

    method PromoteRole(target: Role, isInput: bool, preference: seq<Role>, extra: set<nat>) returns (copies: seq<Endpoint>)
      modifies this
      ensures (endpoints, copies) ==
        Promote(old(endpoints), Choice(old(endpoints), isInput, preference, primaryCard, extra), target)
    {
      var choice := FindWanted(isInput, preference, Some(primaryCard), extra);
      if choice.None? {
        choice := FindWanted(isInput, preference, None, extra);
      }
      if choice.None? {
        return [];
      }
      var e := endpoints[choice.value];
      if IsExternalRole(e.role) {
        return [e.(role := target)];
      }
      endpoints := endpoints[choice.value := e.(role := target)];
      copies := [];
    }

    method AssignRoles()
      modifies this
      ensures endpoints == Assigned(old(endpoints), primaryCard)
    {
      endpoints := StableSort(endpoints, primaryCard);
      var taken := DemoteRoles();
      var speaker, mic := [], [];
      if Speaker !in taken.roles {
        speaker := PromoteRole(Speaker, false, SPEAKER_PREFERENCE, taken.extraHeads);
      }
      if Mic !in taken.roles {
        mic := PromoteRole(Mic, true, MIC_PREFERENCE, taken.extraHeads);
      }
      endpoints := endpoints + speaker + mic;
    }

    method HasRole(role: Role) returns (has: bool)
      ensures has == Has(endpoints, role)
    {
      for i := 0 to |endpoints|
        invariant forall j :: 0 <= j < i ==> endpoints[j].role != role
      {
        if endpoints[i].role == role {
          return true;
        }
      }
      has := false;
    }

    method AddNullEndpointsIfNeeded(nullMic: bool)
      modifies this
      ensures endpoints == WithNull(old(endpoints), nullMic)
    {
      var haveSpeaker := HasRole(Speaker);
      var haveMic := HasRole(Mic);
      if !haveSpeaker {
        endpoints := endpoints + [NullEndpoint(Speaker)];
      }
      if !haveMic && nullMic {
        endpoints := endpoints + [NullEndpoint(Mic)];
      }
    }
  }

  /** One more endpoint of the loop, the rest still as it was. */
  lemma OneMoreDemoted(all: seq<Endpoint>, endpoints: seq<Endpoint>, i: nat, role: Role, primary: int)
    requires i < |all| == |endpoints| && endpoints[i..] == all[i..]
    requires endpoints[..i] == Demote(all[..i], primary).0
    requires role == KeptRole(all[i], Demote(all[..i], primary).1.roles, primary)
    ensures endpoints[i] == all[i]
    ensures
      var after := endpoints[i := all[i].(role := role)];
      var (before, taken) := Demote(all[..i], primary);
      after[i + 1..] == all[i + 1..] &&
      Demote(all[..i + 1], primary) ==
        (after[..i + 1],
         Taken(if IsBus(role) then taken.roles else taken.roles + {role},
               if all[i].role == Hdmi && role != Hdmi then taken.extraHeads + {i} else taken.extraHeads))
  {
    assert endpoints[i] == endpoints[i..][0] == all[i..][0];
    assert all[..i + 1][..i] == all[..i];
    var after := endpoints[i := all[i].(role := role)];
    assert after[..i + 1] == endpoints[..i] + [all[i].(role := role)];
    assert after[i + 1..] == endpoints[i..][1..] == all[i..][1..];
  }

  /** The three flags and the set of the loop, as one set. */
  function TakenRoles(speaker: bool, earpiece: bool, mic: bool, templates: set<Role>): set<Role> {
    (if speaker then {Speaker} else {}) + (if earpiece then {Earpiece} else {}) + (if mic then {Mic} else {}) + templates
  }
}
