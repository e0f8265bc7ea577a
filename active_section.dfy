/**
 * The header's active-section tracker and link highlight (App.tsx): a single
 * string, empty at first, that every intersecting entry of an observer batch
 * overwrites with its target's id, so the last intersecting entry of a batch
 * wins. A navigation link is highlighted when its href, without the leading
 * `#`, equals that string.
 */
module ActiveSection {

  /** The part of an observer entry the tracker reads. */
  datatype Entry = Entry(id: string, isIntersecting: bool)

  /** A navigation link of the header. */
  datatype NavLink = NavLink(name: string, href: string)

  /** The anchors the tracker observes, in page order. */
  const Sections: seq<string> :=
    ["about", "skills", "projects", "experience", "achievements", "contact"]

  /** The header's navigation links, in display order. */
  const NavLinks: seq<NavLink> := [
    NavLink("About", "#about"),
    NavLink("Skills", "#skills"),
    NavLink("Projects", "#projects"),
    NavLink("Experience", "#experience"),
    NavLink("Awards", "#achievements"),
    NavLink("Contact", "#contact")
  ]

  /** The tracked value after one entry. */
  function Visit(active: string, e: Entry): string {
    if e.isIntersecting then e.id else active
  }

  /** The tracked value after a batch, visiting its entries in order. */
  function AfterBatch(active: string, entries: seq<Entry>): string
    decreases |entries|
  {
    if entries == [] then active else AfterBatch(Visit(active, entries[0]), entries[1..])
  }

  /** JavaScript's `s.substring(1)`: everything after the first character. */
  function DropFirst(s: string): (r: string)
    ensures |s| > 0 ==> s == [s[0]] + r
    ensures |s| == 0 ==> r == ""
  {
    if |s| == 0 then "" else s[1..]
  }

  /** The position of the first `#` in `s`. */
  function FirstHash(s: string): (k: nat)
    requires '#' in s
    ensures k < |s| && s[k] == '#' && '#' !in s[..k]
    decreases |s|
  {
    if s[0] == '#' then 0
    else
      var k := FirstHash(s[1..]);
      assert s[..k + 1] == [s[0]] + s[1..][..k];
      k + 1
  }

  /** JavaScript's `s.replace('#', '')`: drops the first `#`, if any. */
  function RemoveFirstHash(s: string): (r: string)
    ensures '#' !in s ==> r == s
    ensures '#' in s ==> r == s[..FirstHash(s)] + s[FirstHash(s) + 1..]
    decreases |s|
  {
    if s == [] then []
    else if s[0] == '#' then s[1..]
    else
      var tail := s[1..];
      if '#' in tail then
        var k := FirstHash(tail);
        assert FirstHash(s) == k + 1;
        assert s[..k + 1] == [s[0]] + tail[..k];
        assert s[k + 2..] == tail[k + 1..];
        [s[0]] + RemoveFirstHash(tail)
      else
        assert s == [s[0]] + tail;
        [s[0]] + RemoveFirstHash(tail)
  }

  /** Whether a link is drawn highlighted for the tracked value. */
  predicate Highlighted(active: string, link: NavLink) {
    active == DropFirst(link.href)
  }

  /** A batch in which no entry intersects leaves the tracked value alone. */
  lemma {:induction false} QuietBatchKeeps(active: string, entries: seq<Entry>)
    requires forall j :: 0 <= j < |entries| ==> !entries[j].isIntersecting
    ensures AfterBatch(active, entries) == active
    decreases |entries|
  {
    if entries != [] {
      QuietBatchKeeps(active, entries[1..]);
    }
  }

  /** After a batch, the tracked value is the id of its last intersecting entry. */
  lemma {:induction false} LastIntersectingWins(active: string, entries: seq<Entry>, k: nat)
    requires k < |entries| && entries[k].isIntersecting
    requires forall j :: k < j < |entries| ==> !entries[j].isIntersecting
    ensures AfterBatch(active, entries) == entries[k].id
    decreases |entries|
  {
    if k == 0 {
      QuietBatchKeeps(entries[0].id, entries[1..]);
    } else {
      LastIntersectingWins(Visit(active, entries[0]), entries[1..], k - 1);
    }
  }

  /** Two batches in a row have the effect of one batch holding both. */
  lemma {:induction false} BatchesCompose(active: string, first: seq<Entry>, second: seq<Entry>)
    ensures AfterBatch(active, first + second) == AfterBatch(AfterBatch(active, first), second)
    decreases |first|
  {
    if first == [] {
      assert first + second == second;
    } else {
      assert (first + second)[1..] == first[1..] + second;
      BatchesCompose(Visit(active, first[0]), first[1..], second);
    }
  }

  /**
   * Unless the value is still the initial one, it names an observed anchor:
   * when every entry comes from a tracked section, so does the value after
   * the batch, or the value is unchanged.
   */
  lemma {:induction false} StaysTracked(active: string, entries: seq<Entry>)
    requires forall j :: 0 <= j < |entries| ==> entries[j].id in Sections
    ensures AfterBatch(active, entries) == active || AfterBatch(active, entries) in Sections
    decreases |entries|
  {
    if entries != [] {
      var next := Visit(active, entries[0]);
      StaysTracked(next, entries[1..]);
    }
  }

  /**
   * The navigation links and the tracker agree: link `i` scrolls to, and is
   * highlighted exactly for, the `i`-th tracked anchor.
   */
  lemma LinksMatchSections(i: nat)
    requires i < |NavLinks|
    ensures |NavLinks| == |Sections|
    ensures RemoveFirstHash(NavLinks[i].href) == Sections[i]
    ensures forall active :: Highlighted(active, NavLinks[i]) <==> active == Sections[i]
  {
  }

  /** At most one link is highlighted, and none for the initial empty value. */
  lemma AtMostOneHighlighted(active: string, i: nat, j: nat)
    requires i < |NavLinks| && j < |NavLinks|
    requires Highlighted(active, NavLinks[i]) && Highlighted(active, NavLinks[j])
    ensures i == j && active != ""
  {
  }

  /** The `Header` component's tracker state. */
  class Header {
    var activeSection: string

    /** `useState('')` */
    constructor ()
      ensures activeSection == ""
    {
      activeSection := "";
    }

    /** The observer callback: `entries.forEach` over one batch. */
    method OnEntries(entries: seq<Entry>)
      modifies this
      ensures activeSection == AfterBatch(old(activeSection), entries)
    {
      for i := 0 to |entries|
        invariant AfterBatch(old(activeSection), entries) == AfterBatch(activeSection, entries[i..])
      {
        assert entries[i..][1..] == entries[i + 1..];
        if entries[i].isIntersecting {
          activeSection := entries[i].id;
        }
      }
    }
  }
}
