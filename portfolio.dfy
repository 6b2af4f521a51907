/** The static gallery configuration of the public pages. */
module Portfolio {

  datatype CategoryConfig = CategoryConfig(title: string, description: string, images: seq<string>)

  /** The configuration table as shipped: only the track gallery lists an image. */
  const PortfolioConfig: map<string, CategoryConfig> := map[
    "track" := CategoryConfig("TRACK &<br>FIELD", "Track & Field Photography", ["TRACK SN DONE (5 of 303).jpg"]),
    "soccer" := CategoryConfig("SOCCER", "Soccer Photography", []),
    "football" := CategoryConfig("FOOTBALL", "Football Photography", []),
    "basketball" := CategoryConfig("BASKETBALL", "Basketball Photography", []),
    "bestOf" := CategoryConfig("BEST<br>OF", "Curated Selection", [])
  ]

  /** Stand-in pictures for a gallery whose configuration lists no image. */
  const PlaceholderImages: seq<string> := [
    "https://images.unsplash.com/photo-1461896836934-ffe607ba8211?w=800&q=80",
    "https://images.unsplash.com/photo-1574629810360-7efbbe195018?w=800&q=80",
    "https://images.unsplash.com/photo-1566577134770-3d85bb3a9cc4?w=800&q=80",
    "https://images.unsplash.com/photo-1546519638-68e109498ffc?w=800&q=80"
  ]

  /** The folders under images/ that hold each gallery's files. */
  const ImageFolders: set<string> := {"track", "soccer", "football", "basketball", "best-of"}
}
