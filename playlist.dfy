/**
 * The playlist builder: feed events and sliders become extended-M3U text.
 *
 * The text is a header line followed by one five-line block per usable
 * stream link: the `#EXTINF` metadata line, three `#EXTVLCOPT` player
 * options and the link itself. The reference description below goes
 * through entries (one per link); `BuildM3U` appends lines in loops, the
 * way the program does, and is proved to produce the same text.
 */
module Playlist {
  import opened Wrappers
  import opened Text
  import opened Config
  import opened Feed
  import opened Links
  import opened League

  /** First line of every playlist. */
  const Header: string := "#EXTM3U"

  /** The metadata one item gives all of its entries. */
  datatype Meta = Meta(tvgId: string, logo: string, group: string, title: string)

  /** One playlist entry: an item's metadata with one of its links. */
  datatype Entry = Entry(meta: Meta, url: string)

  // ---- Reading an event ----

  /** The stripped match name, "Unknown Event" when the field is absent. */
  function EventTitle(e: Event): string {
    Strip(e.matchName.GetOr("Unknown Event"))
  }

  /** The first competitor's logo, the live-TV logo when the field is absent. */
  function EventLogo(e: Event): string {
    e.competitors1Logo.GetOr(LiveTvLogo)
  }

  /** `channel.TVCategory.name`, "Sports" when any step of the path is absent. */
  function EventLeague(e: Event): string {
    match e.channel
    case None => "Sports"
    case Some(c) =>
      match c.tvCategory
      case None => "Sports"
      case Some(cat) => cat.name.GetOr("Sports")
  }

  /** The channel object the event's links are read from; an absent channel is empty. */
  function EventFields(e: Event): map<string, string> {
    match e.channel
    case None => map[]
    case Some(c) => c.fields
  }

  /** An event's entries carry its league's id and group, but its own logo and title. */
  function EventMeta(e: Event): Meta {
    var info := GetLeagueInfo(EventLeague(e));
    Meta(info.tvgId, EventLogo(e), info.group, EventTitle(e))
  }

  function EventLinks(e: Event): seq<string> {
    UsableLinks(EventFields(e), "")
  }

  // ---- Reading a slider ----

  /** The stripped title, "Live Channel" when the field is absent. */
  function SliderTitle(s: Slider): string {
    Strip(s.title.GetOr("Live Channel"))
  }

  /** Every slider is a live channel with the fixed live-TV identity. */
  function SliderMeta(s: Slider): Meta {
    Meta(LiveTvId, LiveTvLogo, "Live TV", SliderTitle(s))
  }

  function SliderLinks(s: Slider): seq<string> {
    UsableLinks(s.liveTV.GetOr(map[]), "live")
  }

  // ---- Rendering ----

  function ExtInf(m: Meta): string {
    "#EXTINF:-1 tvg-id=\"" + m.tvgId + "\" tvg-logo=\"" + m.logo
      + "\" group-title=\"Pixelsports - " + m.group + "\"," + m.title
  }

  const UserAgentOption: string := "#EXTVLCOPT:http-user-agent=" + VlcUserAgent
  const ReferrerOption: string := "#EXTVLCOPT:http-referrer=" + VlcReferer
  const IcyOption: string := "#EXTVLCOPT:http-icy-metadata=" + VlcIcy

  /** The four lines that precede each of an item's links. */
  function BlockHead(m: Meta): seq<string> {
    [ExtInf(m), UserAgentOption, ReferrerOption, IcyOption]
  }

  /** The five lines of one entry. */
  function Block(e: Entry): seq<string> {
    BlockHead(e.meta) + [e.url]
  }

  /** The blocks of a run of entries, in order. */
  function Blocks(es: seq<Entry>): seq<string> {
    if es == [] then [] else Blocks(es[..|es| - 1]) + Block(es[|es| - 1])
  }

  // ---- Entries ----

  /** One entry per link, in link order, all sharing the item's metadata. */
  function ItemEntries(m: Meta, links: seq<string>): seq<Entry> {
    seq(|links|, k requires 0 <= k < |links| => Entry(m, links[k]))
  }

  function EventEntries(evs: seq<Event>): seq<Entry> {
    if evs == [] then []
    else
      var e := evs[|evs| - 1];
      EventEntries(evs[..|evs| - 1]) + ItemEntries(EventMeta(e), EventLinks(e))
  }

  function SliderEntries(ss: seq<Slider>): seq<Entry> {
    if ss == [] then []
    else
      var s := ss[|ss| - 1];
      SliderEntries(ss[..|ss| - 1]) + ItemEntries(SliderMeta(s), SliderLinks(s))
  }

  /** All entries: those of the events, then those of the sliders. */
  function Entries(evs: seq<Event>, ss: seq<Slider>): seq<Entry> {
    EventEntries(evs) + SliderEntries(ss)
  }

  /** The header, then every entry's block. */
  function Render(es: seq<Entry>): seq<string> {
    [Header] + Blocks(es)
  }

  /** The playlist's lines. */
  function PlaylistLines(evs: seq<Event>, ss: seq<Slider>): seq<string> {
    Render(Entries(evs, ss))
  }

  // ---- The builder ----

  /** `build_m3u(events, sliders)`: the playlist text. */
  method BuildM3U(events: seq<Event>, sliders: seq<Slider>) returns (text: string)
    ensures text == Join(PlaylistLines(events, sliders))
  {
    var lines := [Header];

    for n := 0 to |events|
      invariant lines == [Header] + Blocks(EventEntries(events[..n]))
    {
      var ev := events[n];
      var title := Strip(ev.matchName.GetOr("Unknown Event"));
      var logo := ev.competitors1Logo.GetOr(LiveTvLogo);
      var league := EventLeague(ev);
      var info := GetLeagueInfo(league);
      var links := CollectLinks(EventFields(ev), "");
      EventEntriesSnoc(events, n);
      if links == [] {
        assert ItemEntries(EventMeta(ev), EventLinks(ev)) == [];
        assert EventEntries(events[..n + 1]) == EventEntries(events[..n]);
        continue;
      }
      var m := Meta(info.tvgId, logo, info.group, title);
      EventMetaRead(ev, m);
      ghost var before := lines;
      lines := AppendBlocks(lines, m, links);
      ExtendLines(before, [Header], EventEntries(events[..n]), ItemEntries(m, links));
    }
    assert events[..|events|] == events;
    ghost var afterEvents := lines;

    for n := 0 to |sliders|
      invariant lines == afterEvents + Blocks(SliderEntries(sliders[..n]))
    {
      var ch := sliders[n];
      var title := Strip(ch.title.GetOr("Live Channel"));
      var live := ch.liveTV.GetOr(map[]);
      var logo := LiveTvLogo;
      var links := CollectLinks(live, "live");
      SliderEntriesSnoc(sliders, n);
      if links == [] {
        assert ItemEntries(SliderMeta(ch), SliderLinks(ch)) == [];
        assert SliderEntries(sliders[..n + 1]) == SliderEntries(sliders[..n]);
        continue;
      }
      var m := Meta(LiveTvId, logo, "Live TV", title);
      SliderMetaRead(ch, m);
      ghost var before := lines;
      lines := AppendBlocks(lines, m, links);
      ExtendLines(before, afterEvents, SliderEntries(sliders[..n]), ItemEntries(m, links));
    }
    assert sliders[..|sliders|] == sliders;
    ExtendLines(afterEvents, [Header], EventEntries(events), SliderEntries(sliders));

    text := Join(lines);
  }

  /** The per-link loop both sections share: one block per link, in link order. */
  method AppendBlocks(lines: seq<string>, m: Meta, links: seq<string>) returns (lines': seq<string>)
    ensures lines' == lines + Blocks(ItemEntries(m, links))
  {
    lines' := lines;
    for j := 0 to |links|
      invariant lines' == lines + Blocks(ItemEntries(m, links[..j]))
    {
      ghost var prev := lines';
      lines' := lines' + [ExtInf(m), UserAgentOption, ReferrerOption, IcyOption, links[j]];
      AppendEntry(m, links, j);
      assert lines' == prev + Block(Entry(m, links[j]));
      assert lines' == lines + (Blocks(ItemEntries(m, links[..j])) + Block(Entry(m, links[j])));
    }
    assert links[..|links|] == links;
  }

  // ---- Proof steps of the builder ----

  lemma EventEntriesSnoc(evs: seq<Event>, n: nat)
    requires n < |evs|
    ensures EventEntries(evs[..n + 1])
         == EventEntries(evs[..n]) + ItemEntries(EventMeta(evs[n]), EventLinks(evs[n]))
  {
    assert evs[..n + 1][..n] == evs[..n];
  }

  lemma SliderEntriesSnoc(ss: seq<Slider>, n: nat)
    requires n < |ss|
    ensures SliderEntries(ss[..n + 1])
         == SliderEntries(ss[..n]) + ItemEntries(SliderMeta(ss[n]), SliderLinks(ss[n]))
  {
    assert ss[..n + 1][..n] == ss[..n];
  }

  /** The metadata the builder assembles from an event's fields is the event's metadata. */
  lemma EventMetaRead(e: Event, m: Meta)
    requires m.title == Strip(e.matchName.GetOr("Unknown Event"))
    requires m.logo == e.competitors1Logo.GetOr(LiveTvLogo)
    requires m.tvgId == GetLeagueInfo(EventLeague(e)).tvgId
    requires m.group == GetLeagueInfo(EventLeague(e)).group
    ensures m == EventMeta(e)
  {
  }

  /** The metadata the builder assembles from a slider's fields is the slider's metadata. */
  lemma SliderMetaRead(s: Slider, m: Meta)
    requires m.title == Strip(s.title.GetOr("Live Channel"))
    requires m.tvgId == LiveTvId && m.logo == LiveTvLogo && m.group == "Live TV"
    ensures m == SliderMeta(s)
  {
  }

  /** Lines holding the blocks of `a`, followed by the blocks of `b`, hold the blocks of `a + b`. */
  lemma ExtendLines(lines: seq<string>, prefix: seq<string>, a: seq<Entry>, b: seq<Entry>)
    requires lines == prefix + Blocks(a)
    ensures lines + Blocks(b) == prefix + Blocks(a + b)
  {
    BlocksAppend(a, b);
    assert (prefix + Blocks(a)) + Blocks(b) == prefix + (Blocks(a) + Blocks(b));
  }

  /** Appending a link to an item's entries appends its block. */
  lemma AppendEntry(m: Meta, links: seq<string>, j: nat)
    requires j < |links|
    ensures Blocks(ItemEntries(m, links[..j + 1]))
         == Blocks(ItemEntries(m, links[..j])) + Block(Entry(m, links[j]))
  {
    var es := ItemEntries(m, links[..j + 1]);
    assert es[..|es| - 1] == ItemEntries(m, links[..j]);
  }

  // ---- Properties of the reference description ----

  /** Rendering distributes over concatenation of entries. */
  lemma {:induction false} BlocksAppend(a: seq<Entry>, b: seq<Entry>)
    ensures Blocks(a + b) == Blocks(a) + Blocks(b)
    decreases |b|
  {
    if b == [] {
      assert a + b == a;
    } else {
      var b', e := b[..|b| - 1], b[|b| - 1];
      assert (a + b)[..|a + b| - 1] == a + b' && (a + b)[|a + b| - 1] == e;
      BlocksAppend(a, b');
      assert (Blocks(a) + Blocks(b')) + Block(e) == Blocks(a) + (Blocks(b') + Block(e));
    }
  }

  /** Five lines per entry. */
  lemma {:induction false} BlocksLength(es: seq<Entry>)
    ensures |Blocks(es)| == 5 * |es|
  {
    if es != [] {
      BlocksLength(es[..|es| - 1]);
    }
  }

  /** Line `5k + j` of the blocks is line `j` of entry `k`'s block. */
  lemma {:induction false} BlocksAt(es: seq<Entry>, k: nat, j: nat)
    requires k < |es| && j < 5
    ensures |Blocks(es)| == 5 * |es|
    ensures Blocks(es)[5 * k + j] == Block(es[k])[j]
  {
    BlocksLength(es);
    var init := es[..|es| - 1];
    BlocksLength(init);
    if k < |es| - 1 {
      BlocksAt(init, k, j);
    }
  }

  /** Events are read in feed order: the entries of a concatenation are concatenated. */
  lemma {:induction false} EventEntriesAppend(a: seq<Event>, b: seq<Event>)
    ensures EventEntries(a + b) == EventEntries(a) + EventEntries(b)
    decreases |b|
  {
    if b == [] {
      assert a + b == a;
    } else {
      var b', x := b[..|b| - 1], b[|b| - 1];
      assert (a + b)[..|a + b| - 1] == a + b' && (a + b)[|a + b| - 1] == x;
      EventEntriesAppend(a, b');
      var p, q, tail := EventEntries(a), EventEntries(b'), ItemEntries(EventMeta(x), EventLinks(x));
      assert (p + q) + tail == p + (q + tail);
    }
  }

  /** Sliders are read in feed order. */
  lemma {:induction false} SliderEntriesAppend(a: seq<Slider>, b: seq<Slider>)
    ensures SliderEntries(a + b) == SliderEntries(a) + SliderEntries(b)
    decreases |b|
  {
    if b == [] {
      assert a + b == a;
    } else {
      var b', x := b[..|b| - 1], b[|b| - 1];
      assert (a + b)[..|a + b| - 1] == a + b' && (a + b)[|a + b| - 1] == x;
      SliderEntriesAppend(a, b');
      var p, q, tail := SliderEntries(a), SliderEntries(b'), ItemEntries(SliderMeta(x), SliderLinks(x));
      assert (p + q) + tail == p + (q + tail);
    }
  }

  /** How many usable links the events have, in total. */
  function EventLinkCount(evs: seq<Event>): nat {
    if evs == [] then 0 else EventLinkCount(evs[..|evs| - 1]) + |EventLinks(evs[|evs| - 1])|
  }

  /** How many usable links the sliders have, in total. */
  function SliderLinkCount(ss: seq<Slider>): nat {
    if ss == [] then 0 else SliderLinkCount(ss[..|ss| - 1]) + |SliderLinks(ss[|ss| - 1])|
  }

  lemma {:induction false} EventEntriesCount(evs: seq<Event>)
    ensures |EventEntries(evs)| == EventLinkCount(evs)
  {
    if evs != [] {
      EventEntriesCount(evs[..|evs| - 1]);
    }
  }

  lemma {:induction false} SliderEntriesCount(ss: seq<Slider>)
    ensures |SliderEntries(ss)| == SliderLinkCount(ss)
  {
    if ss != [] {
      SliderEntriesCount(ss[..|ss| - 1]);
    }
  }

  /**
   * Rendered entries are the header followed by five lines per entry:
   * line 1 + 5k + j is line j of the k-th entry's block.
   */
  lemma RenderLayout(es: seq<Entry>)
    ensures var lines := Render(es);
      && |lines| == 1 + 5 * |es|
      && lines[0] == Header
      && forall k, j :: 0 <= k < |es| && 0 <= j < 5 ==> lines[1 + 5 * k + j] == Block(es[k])[j]
  {
    BlocksLength(es);
    forall k, j | 0 <= k < |es| && 0 <= j < 5
      ensures Render(es)[1 + 5 * k + j] == Block(es[k])[j]
    {
      BlocksAt(es, k, j);
    }
  }

  /**
   * The playlist has 1 + 5 * (links of all events + links of all sliders)
   * lines, the header first.
   */
  lemma PlaylistLength(evs: seq<Event>, ss: seq<Slider>)
    ensures |PlaylistLines(evs, ss)| == 1 + 5 * (EventLinkCount(evs) + SliderLinkCount(ss))
    ensures PlaylistLines(evs, ss)[0] == Header
  {
    var es := Entries(evs, ss);
    EventEntriesCount(evs);
    SliderEntriesCount(ss);
    RenderLayout(es);
  }

  /**
   * The blocks of one item: k links give k blocks that share their first
   * four lines and differ only in the link, taken in link order.
   */
  lemma ItemBlocks(m: Meta, links: seq<string>, k: nat, j: nat)
    requires k < |links| && j < 5
    ensures |Blocks(ItemEntries(m, links))| == 5 * |links|
    ensures Blocks(ItemEntries(m, links))[5 * k + j] == if j < 4 then BlockHead(m)[j] else links[k]
  {
    BlocksAt(ItemEntries(m, links), k, j);
  }

  /**
   * Only a link line can repeat the header: every line after the first is
   * a metadata or option line, which differs from the header, or the link
   * of the entry it belongs to.
   */
  lemma HeaderOnlyFirst(es: seq<Entry>, i: nat)
    requires 0 < i < |Render(es)|
    ensures (i - 1) % 5 != 4 ==> Render(es)[i] != Header
    ensures (i - 1) % 5 == 4 ==> (i - 1) / 5 < |es| && Render(es)[i] == es[(i - 1) / 5].url
  {
    BlocksLength(es);
    var k, j := (i - 1) / 5, (i - 1) % 5;
    BlocksAt(es, k, j);
    assert Render(es)[i] == Block(es[k])[j];
    if j == 0 {
      assert ExtInf(es[k].meta)[4] != Header[4];
    } else if j < 4 {
      assert Block(es[k])[j][4] != Header[4];
    }
  }

  /** When no link is literally "#EXTM3U", the header appears exactly once, as the first line. */
  lemma HeaderExactlyOnce(es: seq<Entry>)
    requires forall k :: 0 <= k < |es| ==> es[k].url != Header
    ensures Render(es)[0] == Header
    ensures forall i :: 0 < i < |Render(es)| ==> Render(es)[i] != Header
  {
    forall i | 0 < i < |Render(es)|
      ensures Render(es)[i] != Header
    {
      HeaderOnlyFirst(es, i);
    }
  }

  /**
   * An event without usable links contributes no entry, and so no line,
   * wherever it stands in the feed.
   */
  lemma EventWithoutLinksSkipped(before: seq<Event>, e: Event, after: seq<Event>, ss: seq<Slider>)
    requires EventLinks(e) == []
    ensures EventEntries(before + [e] + after) == EventEntries(before + after)
    ensures PlaylistLines(before + [e] + after, ss) == PlaylistLines(before + after, ss)
  {
    EventEntriesAppend(before + [e], after);
    EventEntriesAppend(before, after);
    EventWithoutLinksAtEnd(before, e);
  }

  lemma EventWithoutLinksAtEnd(before: seq<Event>, e: Event)
    requires EventLinks(e) == []
    ensures EventEntries(before + [e]) == EventEntries(before)
  {
    var mid := before + [e];
    assert mid[..|mid| - 1] == before;
    assert ItemEntries(EventMeta(e), EventLinks(e)) == [];
  }

  /**
   * A slider without usable links contributes no entry, and so no line,
   * wherever it stands in the feed.
   */
  lemma SliderWithoutLinksSkipped(evs: seq<Event>, before: seq<Slider>, s: Slider, after: seq<Slider>)
    requires SliderLinks(s) == []
    ensures SliderEntries(before + [s] + after) == SliderEntries(before + after)
    ensures PlaylistLines(evs, before + [s] + after) == PlaylistLines(evs, before + after)
  {
    SliderEntriesAppend(before + [s], after);
    SliderEntriesAppend(before, after);
    SliderWithoutLinksAtEnd(before, s);
  }

  lemma SliderWithoutLinksAtEnd(before: seq<Slider>, s: Slider)
    requires SliderLinks(s) == []
    ensures SliderEntries(before + [s]) == SliderEntries(before)
  {
    var mid := before + [s];
    assert mid[..|mid| - 1] == before;
    assert ItemEntries(SliderMeta(s), SliderLinks(s)) == [];
  }

  /** Each event entry carries the metadata of some event and one of that event's links. */
  lemma {:induction false} EventEntryOrigin(evs: seq<Event>, k: nat)
    requires k < |EventEntries(evs)|
    ensures exists n :: 0 <= n < |evs| && EventEntries(evs)[k].meta == EventMeta(evs[n])
                        && EventEntries(evs)[k].url in EventLinks(evs[n])
  {
    var init := evs[..|evs| - 1];
    var e := evs[|evs| - 1];
    if k < |EventEntries(init)| {
      EventEntryOrigin(init, k);
      var n :| 0 <= n < |init| && EventEntries(init)[k].meta == EventMeta(init[n])
               && EventEntries(init)[k].url in EventLinks(init[n]);
      assert init[n] == evs[n];
    } else {
      var j := k - |EventEntries(init)|;
      assert EventEntries(evs)[k] == Entry(EventMeta(e), EventLinks(e)[j]);
    }
  }

  /** Each slider entry carries the fixed live-TV identity. */
  lemma {:induction false} SliderEntryIdentity(ss: seq<Slider>, k: nat)
    requires k < |SliderEntries(ss)|
    ensures SliderEntries(ss)[k].meta.tvgId == LiveTvId
    ensures SliderEntries(ss)[k].meta.logo == LiveTvLogo
    ensures SliderEntries(ss)[k].meta.group == "Live TV"
  {
    var init := ss[..|ss| - 1];
    if k < |SliderEntries(init)| {
      SliderEntryIdentity(init, k);
    }
  }

  /**
   * Event blocks come before slider blocks: an entry carries the live-TV
   * program-guide id exactly when it lies past the events' entries.
   */
  lemma EventsBeforeSliders(evs: seq<Event>, ss: seq<Slider>, k: nat)
    requires k < |Entries(evs, ss)|
    ensures Entries(evs, ss)[k].meta.tvgId == LiveTvId <==> k >= |EventEntries(evs)|
  {
    var n := |EventEntries(evs)|;
    if k < n {
      EventEntryOrigin(evs, k);
      var i :| 0 <= i < |evs| && EventEntries(evs)[k].meta == EventMeta(evs[i])
               && EventEntries(evs)[k].url in EventLinks(evs[i]);
      ClassificationIsNotLiveTv(EventLeague(evs[i]));
    } else {
      SliderEntryIdentity(ss, k - n);
    }
  }

  /**
   * An event's program-guide id and group come from its league (the default
   * identity when the event has no channel) and are never the live-TV id.
   */
  lemma EventIdentity(e: Event)
    ensures EventMeta(e).tvgId != LiveTvId
    ensures e.channel.None? ==>
      EventMeta(e).tvgId == "Pixelsports.Dummy.us" && EventMeta(e).group == "Pixelsports"
  {
    ClassificationIsNotLiveTv(EventLeague(e));
    if e.channel.None? {
      SportsIsDefault();
    }
  }

  /**
   * An event's logo is the first competitor's, the live-TV logo when that
   * is absent; it never depends on the channel, so the league table's logo
   * is not used.
   */
  lemma EventLogoSource(e: Event)
    ensures e.competitors1Logo.Some? ==> EventMeta(e).logo == e.competitors1Logo.value
    ensures e.competitors1Logo.None? ==> EventMeta(e).logo == LiveTvLogo
    ensures forall c :: EventMeta(e.(channel := c)).logo == EventMeta(e).logo
  {
  }

  /** An event's title is the stripped match name, "Unknown Event" only when the name is absent. */
  lemma EventTitleSource(e: Event)
    ensures e.matchName.None? ==> EventMeta(e).title == "Unknown Event"
    ensures e.matchName.Some? ==> EventMeta(e).title == Strip(e.matchName.value)
  {
    if e.matchName.None? {
      DefaultTitlesStripped();
    }
  }

  /**
   * Every slider has the live-TV identity whatever its links; its title is
   * the stripped `title`, "Live Channel" only when the field is absent.
   */
  lemma SliderMetaSources(s: Slider)
    ensures SliderMeta(s).tvgId == LiveTvId && SliderMeta(s).logo == LiveTvLogo
    ensures SliderMeta(s).group == "Live TV"
    ensures s.title.None? ==> SliderMeta(s).title == "Live Channel"
    ensures s.title.Some? ==> SliderMeta(s).title == Strip(s.title.value)
    ensures forall l :: SliderMeta(s.(liveTV := l)) == SliderMeta(s)
  {
    if s.title.None? {
      DefaultTitlesStripped();
    }
  }

  /** The default titles have no surrounding whitespace, so stripping keeps them. */
  lemma DefaultTitlesStripped()
    ensures Strip("Unknown Event") == "Unknown Event"
    ensures Strip("Live Channel") == "Live Channel"
  {
    var event, channel := "Unknown Event", "Live Channel";
    assert event[0] !in Whitespace && event[|event| - 1] !in Whitespace;
    assert channel[0] !in Whitespace && channel[|channel| - 1] !in Whitespace;
    StripUnchanged(event, Whitespace);
    StripUnchanged(channel, Whitespace);
  }

  /** The fixed lines hold no newline. */
  lemma FixedLinesSingle()
    ensures '\n' !in Header
    ensures '\n' !in UserAgentOption && '\n' !in ReferrerOption && '\n' !in IcyOption
  {
    assert '\n' !in UserAgentOption by {
      assert '\n' !in "#EXTVLCOPT:http-user-agent=";
      assert '\n' !in VlcUserAgent;
    }
    assert '\n' !in ReferrerOption by {
      assert '\n' !in "#EXTVLCOPT:http-referrer=";
    }
    assert '\n' !in IcyOption by {
      assert '\n' !in "#EXTVLCOPT:http-icy-metadata=";
    }
  }

  /**
   * The playlist text starts with the header and, since no newline follows
   * the last line, ends with the last line. When no metadata line or link
   * holds a newline, splitting the text at newlines gives back its lines.
   */
  lemma RenderText(es: seq<Entry>)
    ensures var t := Join(Render(es));
      |Header| <= |t| && t[..|Header|] == Header
    ensures var t := Join(Render(es)); var last := Render(es)[|Render(es)| - 1];
      |last| <= |t| && t[|t| - |last|..] == last
    ensures (forall k :: 0 <= k < |es| ==> '\n' !in ExtInf(es[k].meta) && '\n' !in es[k].url) ==>
      Split(Join(Render(es))) == Render(es)
  {
    var lines := Render(es);
    JoinStartsWith(lines);
    JoinEndsWith(lines);
    if forall k :: 0 <= k < |es| ==> '\n' !in ExtInf(es[k].meta) && '\n' !in es[k].url {
      FixedLinesSingle();
      forall i | 0 <= i < |lines|
        ensures '\n' !in lines[i]
      {
        if i > 0 {
          BlocksLength(es);
          BlocksAt(es, (i - 1) / 5, (i - 1) % 5);
        }
      }
      SplitJoin(lines);
    }
  }

  // ---- A small feed, worked through ----

  const SampleFields: map<string, string> :=
    map["server1URL" := "https://cdn.example/a.m3u8", "server2URL" := "NULL",
        "server3URL" := "https://cdn.example/c.m3u8"]
  const SampleEvent: Event := Event(None, None, Some(Channel(None, SampleFields)))
  const SampleEventWithoutChannel: Event := Event(Some("Final"), None, None)
  const SampleSlider: Slider := Slider(None, Some(map["liveserver1URL" := "https://cdn.example/live.m3u8"]))

  lemma SampleLinks()
    ensures EventLinks(SampleEvent) == ["https://cdn.example/a.m3u8", "https://cdn.example/c.m3u8"]
    ensures EventLinks(SampleEventWithoutChannel) == []
    ensures SliderLinks(SampleSlider) == ["https://cdn.example/live.m3u8"]
  {
    SampleEventLinks();
    SampleSliderLinks();
  }

  lemma SampleEventLinks()
    ensures EventLinks(SampleEvent) == ["https://cdn.example/a.m3u8", "https://cdn.example/c.m3u8"]
  {
    assert EventFields(SampleEvent) == SampleFields;
    UsableLinksInFieldOrder(SampleFields, "");
    SampleFieldLinks();
  }

  lemma SampleFieldLinks()
    ensures FieldLink(SampleFields, ServerKey("", 1)) == ["https://cdn.example/a.m3u8"]
    ensures FieldLink(SampleFields, ServerKey("", 2)) == []
    ensures FieldLink(SampleFields, ServerKey("", 3)) == ["https://cdn.example/c.m3u8"]
  {
    assert ServerKey("", 1) == "server1URL" && ServerKey("", 2) == "server2URL";
    assert ServerKey("", 3) == "server3URL";
    LowerIsNull("NULL");
    LowerIsNull("https://cdn.example/a.m3u8");
    LowerIsNull("https://cdn.example/c.m3u8");
  }

  lemma SampleSliderLinks()
    ensures SliderLinks(SampleSlider) == ["https://cdn.example/live.m3u8"]
  {
    var live := SampleSlider.liveTV.value;
    UsableLinksInFieldOrder(live, "live");
    assert ServerKey("live", 1) == "liveserver1URL";
    ServerKeysDistinct("live", 1, 2);
    ServerKeysDistinct("live", 1, 3);
    LowerIsNull("https://cdn.example/live.m3u8");
  }

  lemma SampleMeta()
    ensures EventMeta(SampleEvent) == Meta("Pixelsports.Dummy.us", LiveTvLogo, "Pixelsports", "Unknown Event")
    ensures SliderMeta(SampleSlider) == Meta(LiveTvId, LiveTvLogo, "Live TV", "Live Channel")
  {
    var e := SampleEvent;
    assert e.channel.Some? && e.channel.value.tvCategory.None?;
    assert EventLeague(e) == "Sports";
    SportsIsDefault();
    EventTitleSource(e);
    EventLogoSource(e);
    SliderMetaSources(SampleSlider);
  }

  /** The entries of a feed of two events and one slider, from their links. */
  lemma EntriesOfSmallFeed(e1: Event, e2: Event, sl: Slider)
    requires |EventLinks(e1)| == 2 && EventLinks(e2) == [] && |SliderLinks(sl)| == 1
    ensures Entries([e1, e2], [sl]) ==
      [Entry(EventMeta(e1), EventLinks(e1)[0]), Entry(EventMeta(e1), EventLinks(e1)[1]),
       Entry(SliderMeta(sl), SliderLinks(sl)[0])]
  {
    EntriesOfEventPair(e1, e2);
    EntriesOfOneSlider(sl);
  }

  lemma EntriesOfEventPair(e1: Event, e2: Event)
    requires |EventLinks(e1)| == 2 && EventLinks(e2) == []
    ensures EventEntries([e1, e2]) ==
      [Entry(EventMeta(e1), EventLinks(e1)[0]), Entry(EventMeta(e1), EventLinks(e1)[1])]
  {
    EventWithoutLinksAtEnd([e1], e2);
    assert [e1] + [e2] == [e1, e2];
    assert [e1][..0] == [];
    assert EventEntries([e1]) == ItemEntries(EventMeta(e1), EventLinks(e1));
  }

  lemma EntriesOfOneSlider(sl: Slider)
    requires |SliderLinks(sl)| == 1
    ensures SliderEntries([sl]) == [Entry(SliderMeta(sl), SliderLinks(sl)[0])]
  {
    assert [sl][..0] == [];
  }

  /**
   * An event with two usable links (its second server field spells null), an
   * event without a channel and a slider with one link give the header and
   * three blocks: two for the first event, in field order, with the default
   * league identity and the default title, none for the second event, and
   * one for the slider.
   */
  lemma SamplePlaylist()
    ensures var em := Meta("Pixelsports.Dummy.us", LiveTvLogo, "Pixelsports", "Unknown Event");
      var sm := Meta(LiveTvId, LiveTvLogo, "Live TV", "Live Channel");
      PlaylistLines([SampleEvent, SampleEventWithoutChannel], [SampleSlider]) ==
        Render([Entry(em, "https://cdn.example/a.m3u8"), Entry(em, "https://cdn.example/c.m3u8"),
                Entry(sm, "https://cdn.example/live.m3u8")])
  {
    SampleLinks();
    SampleMeta();
    EntriesOfSmallFeed(SampleEvent, SampleEventWithoutChannel, SampleSlider);
  }
}
