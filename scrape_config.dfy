/** The configured search origins of kijiji_v2/scrape_config.py: static data that the crawler and
    the spider read. */
module ScrapeConfig {
  /** A geographic search scope: a unique short code, a display name, the site's own region
      identifier and path segment, and the centre and radius of the search. */
  datatype ScrapeOrigin = ScrapeOrigin(
    shortCode: string,
    fullName: string,
    kijijiId: string,
    kijijiName: string,
    latitude: real,
    longitude: real,
    radius: real)

  const Quebec: ScrapeOrigin :=
    ScrapeOrigin("quebec", "Quebec City", "l1700124", "ville-de-quebec", 46.834872, -71.264868, 30.0)

  /** The display name is kept as the source spells it (a mis-decoded "é"). */
  const Montreal: ScrapeOrigin :=
    ScrapeOrigin("montreal", "Montr√©al", "l80002", "grand-montreal", 45.5017, -73.5673, 30.0)

  const Sherbrooke: ScrapeOrigin :=
    ScrapeOrigin("sherbrooke", "Sherbrooke", "l1700156", "sherbrooke-qc", 45.4042, -71.8929, 30.0)

  /** The origins crawled by default. */
  const EnabledOrigins: seq<ScrapeOrigin> := [Quebec]
}
