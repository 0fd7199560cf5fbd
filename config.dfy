/** The fixed configuration of the playlist builder: provider origin, logos and player options. */
module Config {

  /** The provider's origin. */
  const Base: string := "https://pixelsport.tv"

  /** Logo used for live channels and for events without a competitor logo. */
  const LiveTvLogo: string := "https://pixelsport.tv/static/media/PixelSportLogo.1182b5f687c239810f6d.png"

  /** Program-guide (tvg-id) identifier of every live channel. */
  const LiveTvId: string := "24.7.Dummy.us"

  /** User agent, referrer and ICY-metadata flag the player must send. */
  const VlcUserAgent: string := "Mozilla/5.0 (Windows NT 10.0; Win64; x64)"
  const VlcReferer: string := Base + "/"
  const VlcIcy: string := "1"
}
