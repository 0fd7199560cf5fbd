# Pixelsports playlist builder, in Dafny

This project models the core of `pxs.py`. That script turns two provider feeds into an extended-M3U playlist for VLC:
- live sporting events;
- "sliders", which are the 24/7 live channels.

The model covers these parts of the script:
- **Constants.** The provider origin, the live-TV logo and programme-guide id, and the three VLC player options (`config.dfy`). The league table appears in order as `League.LeagueTable` (`league.dfy`).
- **`collect_links`.** Reads the up to three `{prefix}server{i}URL` fields of an object, in order, and keeps those that hold a usable URL. This is `Links.CollectLinks`, a loop proved against the reference function `Links.UsableLinks` (`links.dfy`).
- **`get_league_info`.** Classifies a league name with the first case-insensitive substring match in the league table, and falls back to the Pixelsports identity. This is `League.GetLeagueInfo` (`league.dfy`).
- **`build_m3u`.** Walks the events, then the sliders. For every usable link of an item it appends five lines: `#EXTINF`, three `#EXTVLCOPT` options, and the link. The result is joined with newlines. This is `Playlist.BuildM3U`, a method with the program's own loops and `continue`s (`playlist.dfy`).
  - It is proved equal to `Join(PlaylistLines(events, sliders))`.
  - `PlaylistLines` is a reference description: one *entry* (metadata plus one link) per usable link, events first, and one five-line block per entry.
  - The lemmas beside it state what that description guarantees.

Python's string operations live in `text.dfy`:
- `strip()`, with Python's whitespace set;
- `lower()`;
- substring search `in`;
- `"\n".join`.

Feed items are typed records (`feed.dfy`). A JSON object that carries server URLs is the map of its string-valued fields.

## Model

| member | source | states |
|---|---|---|
| Links.CollectLinks | pxs.py:58-72 | The collected list is exactly the usable-link list of the object. An empty object gives no links. |
| Links.ServerKey | pxs.py:66 | Builds the field name `{prefix}server{i}URL` for i = 1, 2, 3. Its names are pairwise distinct (`Links.ServerKeysDistinct`). |
| Links.IsUsable | pxs.py:70 | A value is usable when it is non-empty and does not lower to "null". `Text.LowerIsNull` spells out the second condition. |
| Links.UsableLinks | pxs.py:61-71 | The reference list of links: none for an empty object, otherwise each usable server field in field order. Its properties are in `Links.UsableLinksInFieldOrder`, `Links.UsableLinksBound`, `Links.LinksAreUsable` and `Links.LinksAreComplete`. |
| League.LeagueTable | pxs.py:28-37 | The eight (key, id, logo, group) rows in the source's insertion order, which is the order the search follows. `League.TableAvoidsDefault` and `League.ClassificationIsNotLiveTv` state facts about them. |
| League.DefaultLeague | pxs.py:83 | The fallback identity: "Pixelsports.Dummy.us", the live-TV logo, "Pixelsports". |
| League.Matches | pxs.py:80 | A rule matches when its lower-cased key occurs in the lower-cased name. `Text.ContainsAt` characterises the occurrence. |
| League.FirstMatch | pxs.py:78-83 | The loop over the table with its early return, written as recursion over the rules. Its meaning is `League.FirstMatchSpec`. |
| League.GetLeagueInfo | pxs.py:75-83 | Classifies a name against `League.LeagueTable`. Its properties are in `League.FirstMatchSpec`, `League.DefaultIffNoMatch`, `League.ClassificationIsTabled` and `League.ClassificationIsNotLiveTv`. |
| Playlist.EventTitle | pxs.py:93 | The stripped `match_name`, or "Unknown Event" (`Playlist.EventTitleSource`). |
| Playlist.EventLogo | pxs.py:95 | `competitors1_logo`, or the live-TV logo (`Playlist.EventLogoSource`). |
| Playlist.EventLeague | pxs.py:97 | The path `channel.TVCategory.name`, or "Sports" when any step is absent (`League.SportsIsDefault`, `Playlist.EventIdentity`). |
| Playlist.EventFields | pxs.py:101 | The channel object the links are read from; an absent channel is the empty object. |
| Playlist.EventMeta | pxs.py:93-99 | The league's id and group with the event's own logo and title (`Playlist.EventIdentity`, `Playlist.EventLogoSource`, `Playlist.EventTitleSource`). |
| Playlist.EventLinks | pxs.py:101 | The usable links of the channel with the empty prefix (`Playlist.EventEntryOrigin`, `Playlist.EventEntriesCount`). |
| Playlist.SliderTitle | pxs.py:118 | The stripped `title`, or "Live Channel" (`Playlist.SliderMetaSources`). |
| Playlist.SliderMeta | pxs.py:118-122 | The fixed live-TV identity with the slider's title (`Playlist.SliderMetaSources`, `Playlist.SliderEntryIdentity`). |
| Playlist.SliderLinks | pxs.py:120-124 | The usable `liveserver{i}URL` links of `liveTV`; an absent `liveTV` is the empty object (`Playlist.SliderEntriesCount`). |
| Playlist.Header | pxs.py:88 | The first line, "#EXTM3U" (`Playlist.HeaderOnlyFirst`, `Playlist.HeaderExactlyOnce`). |
| Playlist.ExtInf | pxs.py:108 | The `#EXTINF:-1` line with tvg-id, tvg-logo, "Pixelsports - " group and title. The same format serves sliders at pxs.py:131 (`Playlist.SampleMeta`, `Playlist.SamplePlaylist`). |
| Playlist.UserAgentOption | pxs.py:110 | The `http-user-agent` player option, also written at pxs.py:133 (`Playlist.FixedLinesSingle`). |
| Playlist.ReferrerOption | pxs.py:111 | The `http-referrer` player option, also written at pxs.py:134 (`Playlist.FixedLinesSingle`). |
| Playlist.IcyOption | pxs.py:112 | The `http-icy-metadata` player option, also written at pxs.py:135 (`Playlist.FixedLinesSingle`). |
| Playlist.PlaylistLines | pxs.py:86-136 | The reference lines: the header, then one five-line block per usable link, events before sliders. `Playlist.BuildM3U` is proved to produce their join. |
| Text.Strip | pxs.py:93 | Python's `strip()` over the characters `str.isspace` accepts (`Text.StripCharsSpec`, `Text.StripIdempotent`). |
| Text.Lower | pxs.py:70 | Lower-casing, ASCII letters only (see Left out; `Text.LowerIsNull`). |
| Text.Contains | pxs.py:80 | Python's `sub in s` as a left-to-right scan (`Text.ContainsAt`). |
| Text.Join | pxs.py:139 | `"\n".join(lines)` (`Text.JoinEndsWith`, `Text.SplitJoin`). |
| Links.UsableLinksInFieldOrder | pxs.py:64-71 | The links are field 1's contribution, then field 2's, then field 3's. Nothing is reordered or duplicated. |
| Links.UsableLinksBound | pxs.py:64 | At most three links are collected. |
| Links.LinksAreUsable | pxs.py:68-71 | Soundness. Every collected link is the value of one of the three server fields, is non-empty, and is not "null" in any mix of letter case. |
| Links.LinksAreComplete | pxs.py:68-71 | Completeness. Every server field whose value is non-empty and not "null" is collected. |
| Links.ServerKeysDistinct | pxs.py:66 | The three field names built from one prefix are pairwise different. |
| League.FirstMatchSpec | pxs.py:78-83 | The search returns the league of the earliest matching rule: a matching rule with no earlier match decides. It returns the default when no rule matches. |
| League.DefaultIffNoMatch | pxs.py:28-37 | The Pixelsports default comes back if and only if no league key occurs, case-insensitively, in the name. |
| League.ClassificationIsTabled | pxs.py:78-83 | Every classification is the default or one of the eight table leagues. |
| League.TableAvoidsDefault | pxs.py:28-37 | No table league uses the default programme-guide id, so the default is recognisable. |
| League.ClassificationIsNotLiveTv | pxs.py:83 | No event classification uses the live-channel id "24.7.Dummy.us". |
| League.NflWinsOverLaterKeys | pxs.py:78-81 | Any name containing "nfl", in any case, is NFL. Table order wins over the position of a key in the name. |
| League.NbaAndNflExample | pxs.py:78-81 | "NBA and NFL Sunday" is grouped as NFL, the earlier table key, although "NBA" comes first in the name. |
| League.NhlExample | pxs.py:31 | "NHL Western Conference" gets the NHL hockey id, logo and group. |
| League.SportsIsDefault | pxs.py:97 | "Sports", the name used when an event has no category, gets the default identity. |
| League.UnknownLeagueIsDefault | pxs.py:83 | The literal name "Unknown League" contains no league key and gets the default identity. The general fact is `League.DefaultIffNoMatch`. |
| Playlist.BuildM3U | pxs.py:86-139 | The text built by the two loops is the newline-join of the reference playlist lines of the events and sliders. |
| Playlist.AppendBlocks | pxs.py:106-113 | The per-link loop appends exactly one five-line block per link, in link order, and keeps the existing lines in front. |
| Playlist.PlaylistLength | pxs.py:88 | The playlist has 1 + 5 × (usable links of all events + usable links of all sliders) lines, and the header comes first. |
| Playlist.RenderLayout | pxs.py:106-113 | Line 0 is "#EXTM3U". Line 1 + 5k + j is line j of the block of entry k. |
| Playlist.ItemBlocks | pxs.py:106-113 | An item's lines repeat its four metadata and option lines before each of its links, link by link. |
| Playlist.HeaderOnlyFirst | pxs.py:108-113 | After line 0, a non-link line is never "#EXTM3U". Every fifth line is the corresponding entry's link. |
| Playlist.HeaderExactlyOnce | pxs.py:88 | The header line occurs once, at the top, provided no link is itself "#EXTM3U". |
| Playlist.EventWithoutLinksSkipped | pxs.py:102-103 | Wherever it sits in the feed, removing an event without usable links leaves the entries unchanged and the playlist lines unchanged. |
| Playlist.SliderWithoutLinksSkipped | pxs.py:125-126 | Wherever it sits in the feed, removing a slider without usable links leaves the entries unchanged and the playlist lines unchanged. |
| Playlist.EventEntriesAppend | pxs.py:91 | The event entries of a concatenation are those of each part, in order. Events are processed one by one, in feed order. |
| Playlist.SliderEntriesAppend | pxs.py:116 | The same holds for sliders. |
| Playlist.BlocksAppend | pxs.py:106-113 | The blocks of concatenated entries are the concatenated blocks. |
| Playlist.EventEntriesCount | pxs.py:91-113 | The number of event entries is the total number of usable links of the events. |
| Playlist.SliderEntriesCount | pxs.py:116-136 | The number of slider entries is the total number of usable links of the sliders. |
| Playlist.EventEntryOrigin | pxs.py:91-113 | Every event entry carries the metadata of some event and one of that event's usable links. |
| Playlist.SliderEntryIdentity | pxs.py:122-131 | Every slider entry has the live-TV id, the live-TV logo and the group "Live TV". |
| Playlist.EventsBeforeSliders | pxs.py:91-136 | An entry carries the live-TV id if and only if it comes after all event entries, so all event entries precede all slider entries. Lines follow entries, since entry k occupies lines 1 + 5k to 5 + 5k (`Playlist.RenderLayout`). |
| Playlist.EventIdentity | pxs.py:97-99 | An event's id is never the live-TV id. An event without a channel is classified "Pixelsports.Dummy.us" / "Pixelsports". |
| Playlist.EventLogoSource | pxs.py:95 | An event's logo is its first competitor's logo, or the live-TV logo when absent. It does not depend on the league or channel. |
| Playlist.EventTitleSource | pxs.py:93 | An event's title is its stripped match name, or "Unknown Event" when absent. |
| Playlist.SliderMetaSources | pxs.py:118-131 | A slider's metadata is the fixed live-TV identity with its stripped title, or "Live Channel". Its `liveTV` data does not affect it. |
| Playlist.DefaultTitlesStripped | pxs.py:93 | The default titles have no surrounding whitespace, so stripping them changes nothing. |
| Playlist.FixedLinesSingle | pxs.py:110-112 | The header and the three player-option lines contain no newline. |
| Playlist.RenderText | pxs.py:139 | The text starts with "#EXTM3U" and ends with the last line, with no trailing newline. If no metadata line or link holds a newline, splitting the text at newlines gives back exactly the lines. |
| Playlist.SampleLinks | pxs.py:58-72 | A channel with server1URL set, server2URL "NULL" and server3URL set yields the first and third URLs. An event without a channel yields none. A slider whose `liveTV` holds a `liveserver1URL` yields that one link. |
| Playlist.SampleMeta | pxs.py:93-99 | A bare event gets "Pixelsports.Dummy.us", the live-TV logo, group "Pixelsports" and title "Unknown Event". A bare slider gets the live-TV identity and "Live Channel". |
| Playlist.EntriesOfSmallFeed | pxs.py:91-136 | Two events, the second without links, and one slider give the first event's two entries, then the slider's entry. |
| Playlist.SamplePlaylist | pxs.py:86-139 | For that concrete feed, the playlist is the header followed by three five-line blocks, with their metadata spelled out. |
| Text.StripCharsSpec | pxs.py:93 | `strip` removes a whitespace prefix and a whitespace suffix and keeps the contiguous middle. The kept part neither starts nor ends with whitespace. |
| Text.StripUnchanged | pxs.py:118 | A string without surrounding whitespace is its own strip. |
| Text.StripIdempotent | pxs.py:118 | Stripping twice is stripping once. |
| Text.LowerIsNull | pxs.py:70 | A string lowers to "null" if and only if it has four letters n/N, u/U, l/L, l/L. |
| Text.ContainsAt | pxs.py:80 | The left-to-right substring scan succeeds if and only if the key occurs at some position of the name. |
| Text.JoinEndsWith | pxs.py:139 | Joining adds no trailing newline: the text ends with the last line. |
| Text.SplitJoin | pxs.py:139 | Splitting the newline-join of newline-free lines gives them back. |

## Left out

- `fetch_json` and `main`: HTTP requests, JSON decoding, writing `Pixelsports.m3u`, progress prints and the catch-all `except`. These are I/O and are not part of this model. `BuildM3U` takes the two decoded feed lists as parameters. The `isinstance(..., dict)` fallbacks of `main` are not modelled either.
- JSON typing:
  - Feed items are typed records.
  - A field that is JSON null is treated as absent.
  - Server URL values are strings.
  - In Python, a null `match_name`, `title`, `channel`, `TVCategory` or `name` raises an exception that `main` catches, and so does a truthy non-string URL such as a number (it has no `lower`). The model has no such crash path. A falsy non-string URL (0, false, an empty list or object) is skipped without error, as an absent field is in the model.
- Playlist.EventLogoSource: a `competitors1_logo` that is present but JSON null is written by Python as the text "None"; the model treats it as absent and uses the live-TV logo.
- Text.Lower: case folding is ASCII-only, while Python's `lower()` is full Unicode.
  - Why the two agree here is a fact about the Unicode case tables. It is not proved in the model, where `Text.LowerIsNull` is about the ASCII `Lower` only.
  - In those tables, only two non-ASCII characters lower to anything containing an ASCII letter: U+212A, the Kelvin sign, to k, and U+0130, the dotted capital I, to i followed by a combining dot.
  - Hence no string other than one spelling n/N, u/U, l/L, l/L lowers to "null" under Python's `lower()` either, so `collect_links` is unaffected.
  - The league search is unaffected as well: no league key contains k, and none ends in i.
- Playlist.HeaderExactlyOnce: requires that no link is "#EXTM3U". The source does not filter such a link, so without that requirement the header may appear again.
- Playlist.RenderText: the round trip through `split` is stated only for lines without a newline. The source writes titles, logos and links unescaped, so a value holding a newline produces extra lines.
- Python's `f"{prefix}server{i}URL" if prefix else ...` is the same name for the empty prefix, so `Links.ServerKey` has one form.
- The per-link loop, written twice in the source, is one method `Playlist.AppendBlocks` that both sections call.
