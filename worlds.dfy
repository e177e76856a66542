/**
 * The world threaded through the pipeline: the validated event, the three
 * coeffect snapshots and the output accumulated so far. Each stage returns a
 * new world; none changes one in place.
 */
module Worlds {
  import opened Wrappers
  import opened Python
  import opened Boundary

  /** The three coeffect categories, each fetched from one AWS service. */
  datatype Category = CloudTrail | S3 | Cur

  /**
   * What the AWS call of one category did: raised, or returned a response
   * whose listing (`trailList`, `Buckets` or `ReportDefinitions`) is given
   * here, absent when the response had no such key.
   */
  datatype Fetch = Fails | Returns(listing: Option<seq<Record>>)

  /**
   * `world['coeffects'][name]` is the response projected onto its listing key:
   * `None` stands for the empty dictionary stored on failure or when the key is missing.
   */
  datatype World = World(event: Input, coeffects: map<Category, Option<seq<Record>>>, output: map<Field, Value>)

  /** The world right after INPUT_SCHEMA: only the event. */
  function Initial(event: Input): World {
    World(event, map[], map[])
  }

  /** `get_in(['coeffects', name, <listing key>], world, [])` */
  function Items(w: World, name: Category): seq<Record> {
    if name in w.coeffects && w.coeffects[name].Some? then w.coeffects[name].value else []
  }

  /** The listing a fetch contributes to the rules: nothing when it failed. */
  function Fetched(fetch: Fetch): seq<Record> {
    if fetch.Returns? && fetch.listing.Some? then fetch.listing.value else []
  }

  /**
   * The `coeffect(name)` wrapper around one fetcher: the fetcher's listing,
   * or `{}` when it raised, is stored under `coeffects[name]` and nothing else
   * in the world changes. The exception never escapes.
   */
  function Coeffect(name: Category, fetch: Fetch, w: World): (r: World)
    ensures r.event == w.event && r.output == w.output
    ensures r.coeffects.Keys == w.coeffects.Keys + {name}
    ensures forall c :: c in w.coeffects && c != name ==> r.coeffects[c] == w.coeffects[c]
    ensures fetch.Fails? ==> r.coeffects[name] == None
    ensures Items(r, name) == Fetched(fetch)
  {
    var data := match fetch
      case Fails => None
      case Returns(listing) => listing;
    w.(coeffects := w.coeffects[name := data])
  }

  /**
   * `coeffects`: the three wrapped fetchers in turn. Each category ends up
   * holding what its own fetch returned, whatever the other two did.
   */
  function CollectCoeffects(w: World, trails: Fetch, buckets: Fetch, reports: Fetch): (r: World)
    ensures r.event == w.event && r.output == w.output
    ensures r.coeffects.Keys == w.coeffects.Keys + {CloudTrail, S3, Cur}
    ensures Items(r, CloudTrail) == Fetched(trails)
    ensures Items(r, S3) == Fetched(buckets)
    ensures Items(r, Cur) == Fetched(reports)
  {
    Coeffect(Cur, reports, Coeffect(S3, buckets, Coeffect(CloudTrail, trails, w)))
  }

  /**
   * A stage that adds the output fields `keys` and changes nothing else:
   * event and coeffects are untouched, every other output field keeps its value.
   */
  ghost predicate AddsOnly(w: World, w': World, keys: set<Field>) {
    && w'.event == w.event
    && w'.coeffects == w.coeffects
    && w'.output.Keys == w.output.Keys + keys
    && (forall f :: f in w.output && f !in keys ==> w'.output[f] == w.output[f])
  }

  /** Two stages in a row add the fields of both; a field the second does not add keeps the first's value. */
  lemma AddsOnlyThen(w: World, w': World, w'': World, keys: set<Field>, keys': set<Field>)
    requires AddsOnly(w, w', keys) && AddsOnly(w', w'', keys')
    ensures AddsOnly(w, w'', keys + keys')
    ensures forall f :: f in keys && f !in keys' ==> w''.output[f] == w'.output[f]
  {
  }

  /** `update_in(world, ['output'], lambda x: merge(x or {}, output))` */
  function Merge(w: World, output: map<Field, Value>): (r: World)
    ensures AddsOnly(w, r, output.Keys)
    ensures forall f :: f in output ==> r.output[f] == output[f]
  {
    w.(output := w.output + output)
  }
}
