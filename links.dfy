/** A saved link and the list operations behind the handlers of the link manager:
    deleting by id (`deleteLink`), cycling one link's priority (`togglePriority`)
    and saving one link's notes (`updateNotes`). */
module Links {
  import Sequences
  import Priority

  /** One saved link. `id` and `timestamp` are both read from the clock when the link is
      added, and `date` is the day-and-month text used to group links. */
  datatype Link = Link(id: int, url: string, date: string, timestamp: int, priority: string, notes: string)

  /** The record `addLink` creates: no status and no notes yet. */
  function NewLink(id: int, url: string, date: string, timestamp: int): Link
  {
    Link(id, url, date, timestamp, Priority.NONE, "")
  }

  function IdIsNot(id: int): Link -> bool
  {
    (l: Link) => l.id != id
  }

  /** The list after `deleteLink(id)`: every link with another id, in the same order. */
  function Remove(links: seq<Link>, id: int): (r: seq<Link>)
    ensures forall i :: 0 <= i < |r| ==> r[i].id != id && r[i] in links
    ensures forall i :: 0 <= i < |links| && links[i].id != id ==> links[i] in r
    ensures Sequences.IsSubsequence(r, links)
  {
    Sequences.FilterIsSubsequence(IdIsNot(id), links);
    Sequences.Filter(IdIsNot(id), links)
  }

  /** Deleting an id that no link has leaves the list as it was. */
  lemma RemoveAbsent(links: seq<Link>, id: int)
    requires forall i :: 0 <= i < |links| ==> links[i].id != id
    ensures Remove(links, id) == links
  {
    Sequences.FilterAllPass(IdIsNot(id), links);
  }

  /** Each link kept by `Remove` is kept as often as it occurs. */
  lemma RemoveCount(links: seq<Link>, id: int, l: Link)
    ensures multiset(Remove(links, id))[l] == if l.id != id then multiset(links)[l] else 0
  {
    Sequences.FilterCount(IdIsNot(id), links);
  }

  /** Deleting the same id twice is deleting it once. */
  lemma RemoveIdempotent(links: seq<Link>, id: int)
    ensures Remove(Remove(links, id), id) == Remove(links, id)
  {
    RemoveAbsent(Remove(links, id), id);
  }

  /** Adding a link whose id is new and then deleting that id gives back the old list. */
  lemma {:induction false} AddThenRemove(links: seq<Link>, url: string, date: string, id: int, timestamp: int)
    requires forall i :: 0 <= i < |links| ==> links[i].id != id
    ensures Remove([NewLink(id, url, date, timestamp)] + links, id) == links
  {
    var added := [NewLink(id, url, date, timestamp)] + links;
    assert added[1..] == links;
    RemoveAbsent(links, id);
  }

  function CycleIfId(id: int): Link -> Link
  {
    (l: Link) => if l.id == id then l.(priority := Priority.Cycle(l.priority)) else l
  }

  /** The list after `togglePriority(id)`: same length and order, the priority of each link
      with that id moved one step round the ring, and nothing else changed. */
  function CyclePriorityOf(links: seq<Link>, id: int): (r: seq<Link>)
    ensures |r| == |links|
    ensures forall i :: 0 <= i < |links| ==> r[i].(priority := links[i].priority) == links[i]
    ensures forall i :: 0 <= i < |links| && links[i].id != id ==> r[i] == links[i]
    ensures forall i :: 0 <= i < |links| && links[i].id == id ==> r[i].priority == Priority.Cycle(links[i].priority)
  {
    Sequences.Map(CycleIfId(id), links)
  }

  /** Every link with this id has one of the four ring states. */
  ghost predicate RingStatesAt(links: seq<Link>, id: int)
  {
    forall i :: 0 <= i < |links| && links[i].id == id ==> links[i].priority in Priority.States
  }

  /** Four clicks on the same link's priority button restore the whole list, provided the
      link held a ring state to begin with. */
  lemma TogglePriorityPeriod(links: seq<Link>, id: int)
    requires RingStatesAt(links, id)
    ensures CyclePriorityOf(CyclePriorityOf(CyclePriorityOf(CyclePriorityOf(links, id), id), id), id) == links
  {
    var r1 := CyclePriorityOf(links, id);
    var r2 := CyclePriorityOf(r1, id);
    var r3 := CyclePriorityOf(r2, id);
    var r4 := CyclePriorityOf(r3, id);
    forall i | 0 <= i < |links| ensures r4[i] == links[i] {
      if links[i].id == id {
        var s := links[i].priority;
        Priority.CyclePeriod(s);
        assert r4[i].priority == s;
      }
    }
  }

  function NotesIfId(id: int, note: string): Link -> Link
  {
    (l: Link) => if l.id == id then l.(notes := note) else l
  }

  /** The list after `updateNotes(id)`: same length and order, the notes of each link with
      that id replaced by `note`, and nothing else changed. */
  function SetNotesOf(links: seq<Link>, id: int, note: string): (r: seq<Link>)
    ensures |r| == |links|
    ensures forall i :: 0 <= i < |links| ==> r[i].(notes := links[i].notes) == links[i]
    ensures forall i :: 0 <= i < |links| && links[i].id != id ==> r[i] == links[i]
    ensures forall i :: 0 <= i < |links| && links[i].id == id ==> r[i].notes == note
  {
    Sequences.Map(NotesIfId(id, note), links)
  }

  /** Saving the same notes twice is saving them once. */
  lemma SetNotesIdempotent(links: seq<Link>, id: int, note: string)
    ensures SetNotesOf(SetNotesOf(links, id, note), id, note) == SetNotesOf(links, id, note)
  {
  }

  /** Cycling a priority and saving notes touch different fields, so their order does not matter. */
  lemma CycleAndNotesCommute(links: seq<Link>, id: int, id': int, note: string)
    ensures CyclePriorityOf(SetNotesOf(links, id', note), id) == SetNotesOf(CyclePriorityOf(links, id), id', note)
  {
  }
}
