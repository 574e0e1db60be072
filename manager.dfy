/** The state of the `LinkManager` component and its event handlers. Each handler is one
    atomic step on the fields; the clock, the date text and the host-name parser are
    passed in as parameters. */
module Manager {
  import opened Wrappers
  import opened Links
  import Priority
  import Sequences
  import Views

  class LinkManager {
    var links: seq<Link>
    /** The text of the link box. */
    var newUrl: string
    /** The link whose notes are open for editing; `None` stands for `null`. */
    var editingId: Option<int>
    /** The text of the notes box. */
    var newNote: string
    var activeFilter: string
    var filterDomain: string

    /** The first render. `saved` is what local storage gave back: `None` when the key is
        missing or empty, or when its text does not parse. */
    constructor (saved: Option<seq<Link>>)
      ensures links == (if saved.Some? then saved.value else [])
      ensures newUrl == "" && editingId == None && newNote == ""
      ensures activeFilter == "all" && filterDomain == ""
    {
      links := if saved.Some? then saved.value else [];
      newUrl := "";
      editingId := None;
      newNote := "";
      activeFilter := "all";
      filterDomain := "";
    }

    /** `addLink`: an empty link box does nothing; otherwise the new link goes in front of
        the list with no status and no notes, and the box is cleared. Only the empty text
        is refused: blanks are not trimmed. */
    method AddLink(id: int, date: string, timestamp: int)
      modifies this
      ensures old(newUrl) == "" ==> links == old(links) && newUrl == old(newUrl)
      ensures old(newUrl) != "" ==>
        && |links| == |old(links)| + 1
        && links[1..] == old(links)
        && links[0] == NewLink(id, old(newUrl), date, timestamp)
        && links[0].url == old(newUrl) && links[0].priority == Priority.NONE && links[0].notes == ""
        && newUrl == ""
      ensures editingId == old(editingId) && newNote == old(newNote)
      ensures activeFilter == old(activeFilter) && filterDomain == old(filterDomain)
    {
      if newUrl == "" {
        return;
      }
      var newLink := NewLink(id, newUrl, date, timestamp);
      links := [newLink] + links;
      newUrl := "";
    }

    /** `deleteLink`: every link with this id goes, the others stay in order, and the
        notes editor closes. */
    method DeleteLink(id: int)
      modifies this
      ensures links == Remove(old(links), id)
      ensures forall i :: 0 <= i < |links| ==> links[i].id != id
      ensures forall i :: 0 <= i < |old(links)| && old(links)[i].id != id ==> old(links)[i] in links
      ensures (forall i :: 0 <= i < |old(links)| ==> old(links)[i].id != id) ==> links == old(links)
      ensures editingId == None
      ensures newUrl == old(newUrl) && newNote == old(newNote)
      ensures activeFilter == old(activeFilter) && filterDomain == old(filterDomain)
    {
      if forall i :: 0 <= i < |links| ==> links[i].id != id {
        RemoveAbsent(links, id);
      }
      links := Remove(links, id);
      editingId := None;
    }

    /** `togglePriority`: the links with this id move one step round the status ring;
        nothing else changes. */
    method TogglePriority(id: int)
      modifies this
      ensures links == CyclePriorityOf(old(links), id)
      ensures |links| == |old(links)|
      ensures forall i :: 0 <= i < |links| && links[i].id != id ==> links[i] == old(links)[i]
      ensures forall i :: 0 <= i < |links| && links[i].id == id ==>
        links[i] == old(links)[i].(priority := Priority.Cycle(old(links)[i].priority))
      ensures newUrl == old(newUrl) && editingId == old(editingId) && newNote == old(newNote)
      ensures activeFilter == old(activeFilter) && filterDomain == old(filterDomain)
    {
      links := CyclePriorityOf(links, id);
    }

    /** `updateNotes`: the links with this id take the text of the notes box, then the
        editor closes and the box is cleared. */
    method UpdateNotes(id: int)
      modifies this
      ensures links == SetNotesOf(old(links), id, old(newNote))
      ensures |links| == |old(links)|
      ensures forall i :: 0 <= i < |links| && links[i].id != id ==> links[i] == old(links)[i]
      ensures forall i :: 0 <= i < |links| && links[i].id == id ==>
        links[i] == old(links)[i].(notes := old(newNote))
      ensures editingId == None && newNote == ""
      ensures newUrl == old(newUrl)
      ensures activeFilter == old(activeFilter) && filterDomain == old(filterDomain)
    {
      links := SetNotesOf(links, id, newNote);
      editingId := None;
      newNote := "";
    }

    /** `startEditing`: open the notes editor on `link`, starting from its current notes. */
    method StartEditing(link: Link)
      modifies this
      ensures editingId == Some(link.id) && newNote == link.notes
      ensures links == old(links) && newUrl == old(newUrl)
      ensures activeFilter == old(activeFilter) && filterDomain == old(filterDomain)
    {
      editingId := Some(link.id);
      newNote := link.notes;
    }

    /** The Cancel button of the notes editor: close it, keeping the box's text. */
    method CancelEditing()
      modifies this
      ensures editingId == None
      ensures links == old(links) && newUrl == old(newUrl) && newNote == old(newNote)
      ensures activeFilter == old(activeFilter) && filterDomain == old(filterDomain)
    {
      editingId := None;
    }

    /** Typing in the link box. */
    method SetNewUrl(text: string)
      modifies this
      ensures newUrl == text
      ensures links == old(links) && editingId == old(editingId) && newNote == old(newNote)
      ensures activeFilter == old(activeFilter) && filterDomain == old(filterDomain)
    {
      newUrl := text;
    }

    /** Typing in the notes box. */
    method SetNewNote(text: string)
      modifies this
      ensures newNote == text
      ensures links == old(links) && newUrl == old(newUrl) && editingId == old(editingId)
      ensures activeFilter == old(activeFilter) && filterDomain == old(filterDomain)
    {
      newNote := text;
    }

    /** One of the four status buttons of the filter panel: `"all"` or a status. */
    method SetActiveFilter(filter: string)
      modifies this
      ensures activeFilter == filter
      ensures links == old(links) && newUrl == old(newUrl) && editingId == old(editingId)
      ensures newNote == old(newNote) && filterDomain == old(filterDomain)
    {
      activeFilter := filter;
    }

    /** Typing in the website box of the filter panel. */
    method SetFilterDomain(text: string)
      modifies this
      ensures filterDomain == text
      ensures links == old(links) && newUrl == old(newUrl) && editingId == old(editingId)
      ensures newNote == old(newNote) && activeFilter == old(activeFilter)
    {
      filterDomain := text;
    }

    /** `groupedLinks`: the shown links, bucketed by date. Together the buckets hold every
        shown link exactly as often as it is shown; each bucket holds exactly the shown
        links of its date, in list order; the dates are exactly those of the shown links,
        distinct, and come in the order each is first met. `host` stands for `getUrlHostname`. */
    function GroupedLinks(host: string -> string): (g: seq<Views.Bucket>)
      reads this
      ensures var shown := Views.FilterLinks(links, activeFilter, filterDomain, host);
        && (forall d :: d in Views.Keys(g) <==> d in Views.Dates(shown))
        && multiset(Views.Flatten(g)) == multiset(shown)
        && (forall i :: 0 <= i < |g| ==> g[i].links == Sequences.Filter(Views.DateIs(g[i].date), shown))
        && Views.FirstSeenOrder(Views.Keys(g), Views.Dates(shown))
      ensures |Views.Flatten(g)| == |Views.FilterLinks(links, activeFilter, filterDomain, host)|
      ensures forall i, j :: 0 <= i < j < |g| ==> g[i].date != g[j].date
      ensures forall i, k :: 0 <= i < |g| && 0 <= k < |g[i].links| ==>
        var l := g[i].links[k];
        l in links && l.date == g[i].date && Views.Shown(activeFilter, filterDomain, host, l)
    {
      var shown := Views.FilterLinks(links, activeFilter, filterDomain, host);
      Views.GroupPermutation(shown);
      Views.GroupKeys(shown);
      Views.GroupBuckets(shown);
      Views.Group(shown)
    }
  }
}
