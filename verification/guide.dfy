/** The translation loop of `main`: XMLTV `channel` elements teach the tool
    which VDR call sign an XMLTV channel id stands for, and each
    `programme` element becomes one guide event for that call sign, queued
    for the SVDRP session in document order. */
module Guide {
  import opened Wrappers
  import opened Channels
  import Tables
  import opened EpgEvent

  /** An XMLTV `channel` element: its id and its display names. */
  datatype Channel = Channel(id: string, names: seq<string>)

  /** An XMLTV `programme` element, with the text of its child elements
      (empty when absent) and the value of its `rating`. */
  datatype Programme = Programme(
    start: string,
    stop: string,
    channel: string,
    title: string,
    subTitle: string,
    description: string,
    credits: string,
    date: string,
    categories: seq<string>,
    rating: string)

  /** A decoded top-level element of the guide, in document order. */
  datatype Item = ChannelItem(ch: Channel) | ProgrammeItem(p: Programme)

  /** `xmltvid2callsign`. */
  type Xref = map<string, string>

  /** The first display name that is a call sign of the directory. */
  function FirstListed(names: seq<string>, dir: Directory): (r: Option<string>)
    ensures r.Some? ==> r.value in dir
    decreases |names|
  {
    if |names| == 0 then None
    else if names[0] in dir then Some(names[0])
    else FirstListed(names[1..], dir)
  }

  /** No name is found exactly when none of the names is a call sign of the
      directory; a found name is the first one that is. */
  lemma {:induction false} FirstListedFirst(names: seq<string>, dir: Directory)
    ensures var r := FirstListed(names, dir);
            && (r.None? <==> forall i :: 0 <= i < |names| ==> names[i] !in dir)
            && (r.Some? ==> exists i :: 0 <= i < |names| && names[i] == r.value &&
                              forall j :: 0 <= j < i ==> names[j] !in dir)
    decreases |names|
  {
    if |names| > 0 && names[0] !in dir {
      var r := FirstListed(names[1..], dir);
      FirstListedFirst(names[1..], dir);
      assert forall i :: 0 < i < |names| ==> names[i] == names[1..][i - 1];
      if r.Some? {
        var i :| 0 <= i < |names| - 1 && names[1..][i] == r.value &&
                 forall j :: 0 <= j < i ==> names[1..][j] !in dir;
        assert names[i + 1] == r.value && forall j :: 0 <= j < i + 1 ==> names[j] !in dir;
      }
    } else if |names| > 0 {
      assert names[0] == FirstListed(names, dir).value;
    }
  }

  /** A `channel` element: the id is bound to the call sign of the
      directory entry found under its first listed display name; with no
      listed name the cross-reference is left as it was. The alias list the
      loop builds goes into a copy of the entry and is lost. */
  function MapChannel(xref: Xref, dir: Directory, ch: Channel): (r: Xref)
    ensures FirstListed(ch.names, dir).None? ==> r == xref
    ensures FirstListed(ch.names, dir).Some? ==>
              var name := FirstListed(ch.names, dir).value;
              && r.Keys == xref.Keys + {ch.id}
              && r[ch.id] == dir[name].callSign
              && forall k :: k in xref && k != ch.id ==> r[k] == xref[k]
  {
    match FirstListed(ch.names, dir)
    case None => xref
    case Some(name) => xref[ch.id := dir[name].callSign]
  }

  /** A `programme` element as the event queued for the session. */
  function Translate(xref: Xref, p: Programme): Event {
    Event(
      p.channel,
      Lookup(xref, p.channel, ""),
      p.start,
      p.stop,
      p.stop,
      p.title,
      p.subTitle,
      p.description,
      Tables.GenreCodes(p.categories),
      Tables.RatingCode(p.rating))
  }

  /** The event carries the programme's texts and stamps unchanged, the
      stop stamp a second time as its duration field, one genre code per
      category in category order (0 for an unknown one), the rating's code
      (0 for an unknown or empty one), and the call sign the programme's
      channel id is bound to, or "" when it is bound to none. */
  lemma TranslateFields(xref: Xref, p: Programme)
    ensures var e := Translate(xref, p);
            && e.channel == p.channel && e.start == p.start && e.stop == p.stop && e.duration == p.stop
            && e.title == p.title && e.subTitle == p.subTitle && e.description == p.description
            && (p.channel in xref ==> e.callSign == xref[p.channel])
            && (p.channel !in xref ==> e.callSign == "")
            && |e.genres| == |p.categories|
            && (forall i :: 0 <= i < |p.categories| ==>
                  e.genres[i] == (if Tables.Has(Tables.Genres, p.categories[i]) then Tables.Lookup(Tables.Genres, p.categories[i]) else 0))
            && e.rating == (if Tables.Has(Tables.Ratings, p.rating) then Tables.Lookup(Tables.Ratings, p.rating) else 0)
  {
  }

  /** The cross-reference and the queued events after some elements. */
  datatype Ingested = Ingested(xref: Xref, events: seq<Event>)

  /** The decoding loop of `main` over the guide's elements in order: the
      cross-reference it builds and the events it queues. */
  function Ingest(dir: Directory, items: seq<Item>): (r: Ingested) {
    Ingested(Xrefs(dir, items), Queue(dir, items))
  }

  /** The cross-reference after `items`: each `channel` element in turn. */
  function Xrefs(dir: Directory, items: seq<Item>): Xref
    decreases |items|
  {
    if |items| == 0 then map[]
    else
      var before := Xrefs(dir, items[..|items| - 1]);
      match items[|items| - 1]
      case ChannelItem(ch) => MapChannel(before, dir, ch)
      case ProgrammeItem(_) => before
  }

  /** The events queued for `items`: each `programme` element translated
      with the cross-reference as it stands when the element is decoded. */
  function Queue(dir: Directory, items: seq<Item>): seq<Event>
    decreases |items|
  {
    if |items| == 0 then []
    else
      var prefix := items[..|items| - 1];
      match items[|items| - 1]
      case ChannelItem(_) => Queue(dir, prefix)
      case ProgrammeItem(p) => Queue(dir, prefix) + [Translate(Xrefs(dir, prefix), p)]
  }

  /** The programme elements among `items`, in order. */
  function Programmes(items: seq<Item>): (ps: seq<Programme>)
    ensures |ps| <= |items|
    decreases |items|
  {
    if |items| == 0 then []
    else
      var ps := Programmes(items[..|items| - 1]);
      match items[|items| - 1]
      case ChannelItem(_) => ps
      case ProgrammeItem(p) => ps + [p]
  }

  /** `c` binds channel id `id` to a listed name of `dir`. */
  predicate Binds(it: Item, dir: Directory, id: string) {
    it.ChannelItem? && it.ch.id == id && FirstListed(it.ch.names, dir).Some?
  }

  /** The cross-reference changes only at a `channel` element with a
      listed name, and then only at that element's id. */
  lemma XrefsStep(dir: Directory, items: seq<Item>)
    requires |items| > 0
    ensures var it := items[|items| - 1];
            var before := Xrefs(dir, items[..|items| - 1]);
            Xrefs(dir, items) ==
              if it.ChannelItem? && Binds(it, dir, it.ch.id) then before[it.ch.id := dir[FirstListed(it.ch.names, dir).value].callSign]
              else before
  {
  }

  /** An id is in the cross-reference exactly when some `channel` element
      with that id listed a known display name. */
  lemma {:induction false} XrefKeys(dir: Directory, items: seq<Item>)
    ensures forall id :: id in Xrefs(dir, items) <==> exists i :: 0 <= i < |items| && Binds(items[i], dir, id)
    decreases |items|
  {
    if |items| > 0 {
      var last := |items| - 1;
      var prefix := items[..last];
      XrefKeys(dir, prefix);
      XrefKeysStep(dir, items);
      var before := Xrefs(dir, prefix);
      var xref := Xrefs(dir, items);
      forall id
        ensures id in xref <==> exists i :: 0 <= i < |items| && Binds(items[i], dir, id)
      {
        if exists i :: 0 <= i < |items| && Binds(items[i], dir, id) {
          var i :| 0 <= i < |items| && Binds(items[i], dir, id);
          if i < last {
            assert prefix[i] == items[i];
          }
        }
        if id in before {
          var i :| 0 <= i < last && Binds(prefix[i], dir, id);
          assert prefix[i] == items[i];
        }
      }
    }
  }

  lemma XrefKeysStep(dir: Directory, items: seq<Item>)
    requires |items| > 0
    ensures forall id :: id in Xrefs(dir, items) <==>
              id in Xrefs(dir, items[..|items| - 1]) || Binds(items[|items| - 1], dir, id)
  {
    XrefsStep(dir, items);
  }

  /** A bound id carries the call sign chosen by the last `channel`
      element that bound it. */
  lemma {:induction false} XrefLastWins(dir: Directory, items: seq<Item>)
    ensures forall i ::
              (0 <= i < |items| && items[i].ChannelItem? && Binds(items[i], dir, items[i].ch.id) &&
               forall j :: i < j < |items| ==> !Binds(items[j], dir, items[i].ch.id)) ==>
              && items[i].ch.id in Xrefs(dir, items)
              && Xrefs(dir, items)[items[i].ch.id] == dir[FirstListed(items[i].ch.names, dir).value].callSign
    decreases |items|
  {
    if |items| > 0 {
      var last := |items| - 1;
      var prefix := items[..last];
      XrefLastWins(dir, prefix);
      XrefsStep(dir, items);
      var xref := Xrefs(dir, items);
      forall i | 0 <= i < |items| && items[i].ChannelItem? && Binds(items[i], dir, items[i].ch.id) &&
                 (forall j :: i < j < |items| ==> !Binds(items[j], dir, items[i].ch.id))
        ensures items[i].ch.id in xref
        ensures xref[items[i].ch.id] == dir[FirstListed(items[i].ch.names, dir).value].callSign
      {
        if i < last {
          var id := items[i].ch.id;
          assert !Binds(items[last], dir, id);
          assert forall j :: i < j < last ==> prefix[j] == items[j];
          assert prefix[i] == items[i];
        }
      }
    }
  }

  /** Every `programme` element queues exactly one event, in document
      order, carrying that programme's texts and stamps; `channel` elements
      queue nothing. */
  lemma {:induction false} IngestQueuesProgrammes(dir: Directory, items: seq<Item>)
    ensures var events := Queue(dir, items);
            var ps := Programmes(items);
            && |events| == |ps|
            && forall i :: 0 <= i < |ps| ==>
                 && events[i].channel == ps[i].channel && events[i].start == ps[i].start
                 && events[i].stop == ps[i].stop && events[i].title == ps[i].title
                 && events[i].subTitle == ps[i].subTitle && events[i].description == ps[i].description
                 && events[i].genres == Tables.GenreCodes(ps[i].categories) && events[i].rating == Tables.RatingCode(ps[i].rating)
    decreases |items|
  {
    if |items| > 0 {
      var prefix := items[..|items| - 1];
      IngestQueuesProgrammes(dir, prefix);
      match items[|items| - 1]
      case ChannelItem(_) =>
        assert Queue(dir, items) == Queue(dir, prefix) && Programmes(items) == Programmes(prefix);
      case ProgrammeItem(p) =>
        assert Queue(dir, items) == Queue(dir, prefix) + [Translate(Xrefs(dir, prefix), p)];
        assert Programmes(items) == Programmes(prefix) + [p];
    }
  }

  /** With a directory keyed by call sign, as the loader builds it, every
      queued event's call sign is either "" or a call sign of the
      directory. */
  lemma {:induction false} IngestCallSigns(dir: Directory, items: seq<Item>)
    requires forall k :: k in dir ==> dir[k].callSign == k
    ensures forall id :: id in Xrefs(dir, items) ==> Xrefs(dir, items)[id] in dir
    ensures forall e :: e in Queue(dir, items) ==> e.callSign == "" || e.callSign in dir
    decreases |items|
  {
    if |items| > 0 {
      var prefix := items[..|items| - 1];
      IngestCallSigns(dir, prefix);
      match items[|items| - 1]
      case ChannelItem(_) =>
        assert Queue(dir, items) == Queue(dir, prefix);
      case ProgrammeItem(p) =>
        assert Queue(dir, items) == Queue(dir, prefix) + [Translate(Xrefs(dir, prefix), p)];
    }
  }
}
