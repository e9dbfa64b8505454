/** The participants panel: the head count, the viewer's own "Me" chip,
    the other participants up to a width-dependent limit, and a badge
    counting those left over. */
module ParticipantsList {
  import opened Js
  import opened Types

  /** `+{remainingCount} {window.innerWidth < 500 ? '' : 'more'}`. */
  datatype Badge = Badge(count: nat, suffix: string)

  datatype Panel = Panel(count: nat, me: Option<Participant>, visible: seq<Participant>, overflow: Option<Badge>)

  /** `window.innerWidth < 500 ? 3 : 6`. */
  function MaxVisible(innerWidth: int): nat
  {
    if innerWidth < 500 then 3 else 6
  }

  /** `participants.find(p => p.id === id)`: the first entry with that
      identifier, if there is one. */
  function FindById(ps: seq<Participant>, id: string): (r: Option<Participant>)
    ensures r.Some? <==> exists k :: 0 <= k < |ps| && ps[k].id == id
    ensures r.Some? ==> r.value in ps && r.value.id == id
  {
    if ps == [] then None
    else if ps[0].id == id then Some(ps[0])
    else FindById(ps[1..], id)
  }

  /** `find` returns the first match, whatever follows it. */
  lemma {:induction false} FindByIdFirst(ps: seq<Participant>, id: string, k: nat)
    requires k < |ps| && ps[k].id == id
    requires forall j :: 0 <= j < k ==> ps[j].id != id
    ensures FindById(ps, id) == Some(ps[k])
  {
    if k > 0 {
      FindByIdFirst(ps[1..], id, k - 1);
    }
  }

  /** The panel for `participants` seen by `currentParticipantId` in a
      window `innerWidth` pixels wide. */
  function ShowPanel(ps: seq<Participant>, currentParticipantId: string, innerWidth: int): (v: Panel)
    ensures v.count == |ps|
    ensures v.me.Some? <==> exists k :: 0 <= k < |ps| && ps[k].id == currentParticipantId
    ensures v.me == FindById(ps, currentParticipantId)
    ensures forall p :: p in v.visible ==> p in ps && p.id != currentParticipantId
    ensures |v.visible| == if |WithoutId(ps, currentParticipantId)| < MaxVisible(innerWidth)
                           then |WithoutId(ps, currentParticipantId)| else MaxVisible(innerWidth)
    ensures v.visible == WithoutId(ps, currentParticipantId)[..|v.visible|]
    ensures v.overflow.Some? <==> |WithoutId(ps, currentParticipantId)| > MaxVisible(innerWidth)
    ensures v.overflow.Some? ==>
      v.overflow.value.count == |WithoutId(ps, currentParticipantId)| - MaxVisible(innerWidth)
      && |v.visible| + v.overflow.value.count == |WithoutId(ps, currentParticipantId)|
  {
    var others := WithoutId(ps, currentParticipantId);
    var max := MaxVisible(innerWidth);
    var visible := if |others| <= max then others else others[..max];
    var remaining := |others| - max;
    Panel(|ps|, FindById(ps, currentParticipantId), visible,
          if remaining > 0 then Some(Badge(remaining, if innerWidth < 500 then "" else "more")) else None)
  }

  /** When the viewer has exactly one entry, the head count splits into
      the viewer's chip, the visible chips and the overflow count. */
  lemma PanelAccountsForEveryone(ps: seq<Participant>, currentParticipantId: string, innerWidth: int)
    requires CountId(ps, currentParticipantId) == 1
    ensures var v := ShowPanel(ps, currentParticipantId, innerWidth);
      1 + |v.visible| + (if v.overflow.Some? then v.overflow.value.count else 0) == v.count
  {
  }
}
