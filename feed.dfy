/**
 * The feed items the playlist is built from, as typed records.
 *
 * A JSON object that carries stream URLs is modelled by the map of its
 * string-valued fields; a field that is absent or JSON null is simply not
 * in the map. An `Option` field is `None` exactly when the key is absent.
 */
module Feed {
  import opened Wrappers

  /** `channel.TVCategory`: the league or sport the event belongs to. */
  datatype Category = Category(name: Option<string>)

  /** `event.channel`: the category and the `server{i}URL` fields. */
  datatype Channel = Channel(tvCategory: Option<Category>, fields: map<string, string>)

  /** One item of the events feed. */
  datatype Event = Event(
    matchName: Option<string>,
    competitors1Logo: Option<string>,
    channel: Option<Channel>)

  /** One item of the sliders feed; `liveTV` holds the `liveserver{i}URL` fields. */
  datatype Slider = Slider(title: Option<string>, liveTV: Option<map<string, string>>)
}
