/** The client-side records of a room: a participant and a message, and
    the one list operation on participants that both the store and the
    participants panel use, `participants.filter(p => p.id !== id)`. */
module Types {

  datatype Participant = Participant(id: string, userName: string, language: string)

  /** A message as the client holds it; `translations` maps a language
      code to the text translated into it. */
  datatype Message = Message(
    id: string,
    senderId: string,
    senderName: string,
    originalText: string,
    originalLanguage: string,
    translations: map<string, string>,
    createdAt: string)

  /** How many entries of `ps` carry the identifier `id`. */
  function CountId(ps: seq<Participant>, id: string): nat
  {
    if ps == [] then 0 else (if ps[0].id == id then 1 else 0) + CountId(ps[1..], id)
  }

  /** The participants whose identifier is not `id`, in their order:
      every one of them is kept and nothing with identifier `id` is. */
  function WithoutId(ps: seq<Participant>, id: string): (r: seq<Participant>)
    ensures |r| == |ps| - CountId(ps, id)
    ensures forall k :: 0 <= k < |r| ==> r[k].id != id && r[k] in ps
    ensures forall p :: p in ps && p.id != id ==> p in r
  {
    if ps == [] then []
    else (if ps[0].id != id then [ps[0]] else []) + WithoutId(ps[1..], id)
  }

  lemma {:induction false} CountIdAppend(a: seq<Participant>, b: seq<Participant>, id: string)
    ensures CountId(a + b, id) == CountId(a, id) + CountId(b, id)
  {
    if a == [] {
      assert a + b == b;
    } else {
      assert (a + b)[1..] == a[1..] + b;
      CountIdAppend(a[1..], b, id);
    }
  }

  /** Filtering splits over concatenation, so it keeps the relative order
      of the entries it keeps. */
  lemma {:induction false} WithoutIdAppend(a: seq<Participant>, b: seq<Participant>, id: string)
    ensures WithoutId(a + b, id) == WithoutId(a, id) + WithoutId(b, id)
  {
    if a == [] {
      assert a + b == b;
    } else {
      assert (a + b)[1..] == a[1..] + b;
      WithoutIdAppend(a[1..], b, id);
    }
  }

  /** A list with no entry for `id` passes the filter unchanged. */
  lemma {:induction false} WithoutIdAbsent(ps: seq<Participant>, id: string)
    requires forall k :: 0 <= k < |ps| ==> ps[k].id != id
    ensures WithoutId(ps, id) == ps
  {
    if ps != [] {
      WithoutIdAbsent(ps[1..], id);
    }
  }
}
