/** parsers/fuzzyCitySearch.ts stands for a Fuse.js index over the city
    list. The model keeps only what the callers read of its answer: the top
    hit's item and which of the callers' two score tests it passes. */
module FuzzySearch {

  /** `score === 0`, `score < 0.3` (and not 0), or neither (a larger or an
      undefined score). */
  datatype Tier = Exact | Close | Distant

  /** `fuseResult[0]`, or no result at all. */
  datatype TopHit = NoHit | Hit(item: string, tier: Tier)

  /** The gazetteer: the lower-cased city set of cityUtils.ts and the fuzzy
      search over the same list, taken as an oracle. */
  datatype Gazetteer = Gazetteer(cities: set<string>, search: string -> TopHit)
}
