/**
 * The viewer's mutable state (js/app.js): whether the overlay should be shown, the current
 * overlay, which overlays are on the map, the status line, and the requests made so far.
 * Leaflet layers are represented only by their stamp (`id`); the tile layer, the scale
 * control and the legend are not part of this model.
 */
module Viewer {
  import opened JsValues
  import opened Fetch

  /** The status line, without its wording, build id or emoji. */
  datatype Status = Initializing | Fetching | Ready(featureCount: nat, source: string) | Error(message: string)

  /** A GeoJSON overlay: its Leaflet stamp and the features it was built from. */
  datatype Overlay = Overlay(id: nat, features: seq<JsValue>)

  /** The status line a finished load leaves: feature count and source, or the error's message. */
  function StatusAfter(out: LoadResult): (st: Status)
    ensures st.Ready? <==> out.Loaded?
    ensures out.Loaded? ==> st.featureCount == |out.features| && st.source == out.source
    ensures out.Failed? ==> st == Error(out.message)
  {
    match out
    case Loaded(fs, source) => Ready(|fs|, source)
    case Failed(m) => Error(m)
  }

  class MapView {
    /** `let overlayVisible`: whether the user wants the overlay shown. */
    var overlayVisible: bool
    /** `let overlay`: the overlay built by the last successful load. */
    var overlay: Overlay
    /** The stamps of the overlays currently on the map. */
    var layers: set<nat>
    /** The stamp the next overlay gets. */
    var nextId: nat
    var status: Status
    /** Every URL requested so far, cache-busting parameter included. */
    ghost var requested: seq<string>

    /** The current overlay is on the map exactly when it should be visible, and no older one is. */
    ghost predicate Valid()
      reads this
    {
      overlay.id < nextId && layers == if overlayVisible then {overlay.id} else {}
    }

    /** Start-up: an empty overlay, visible and on the map. */
    constructor ()
      ensures Valid()
      ensures overlayVisible && overlay.features == [] && layers == {overlay.id}
      ensures status == Initializing && requested == []
    {
      overlayVisible := true;
      overlay := Overlay(0, []);
      nextId := 1;
      layers := {0};
      status := Initializing;
      requested := [];
    }

    /** The toggle button: flip `overlayVisible`, then add or remove the overlay to match. */
    method Toggle()
      requires Valid()
      modifies this
      ensures Valid()
      ensures overlayVisible == !old(overlayVisible)
      ensures overlay.id in layers <==> overlayVisible
      ensures overlay == old(overlay) && nextId == old(nextId)
      ensures status == old(status) && requested == old(requested)
    {
      overlayVisible := !overlayVisible;
      if overlayVisible {
        layers := layers + {overlay.id};
      } else {
        layers := layers - {overlay.id};
      }
    }

    /**
     * The try/catch of `load()`: request the primary URL and, only if that rejects, the
     * fallback URL once. `now1` and `now2` are `Date.now()` at the two requests.
     */
    method FetchDocument(net: string -> NetResult, now1: nat, now2: nat)
      returns (fetched: Result<(JsValue, string)>)
      modifies this`requested
      ensures fetched == Fetched(net, now1, now2)
      ensures requested == old(requested) + Requests(net, now1, now2)
    {
      var gj: JsValue := Null;
      var source: string := "";
      var first := FetchJson(PrimaryUrl, now1, net);
      requested := requested + [CacheBust(PrimaryUrl, now1)];
      if first.Ok? {
        gj, source := first.value, PrimaryUrl;
      } else {
        var second := FetchJson(FallbackUrl, now2, net);
        requested := requested + [CacheBust(FallbackUrl, now2)];
        if second.Err? {
          return Err(second.message);
        }
        gj, source := second.value, FallbackUrl;
      }
      return Ok((gj, source));
    }

    /**
     * One call of `load()` with its `.catch`: fetch with fallback, check `features`, and
     * only then swap the overlay, showing the new one exactly when `overlayVisible` holds.
     */
    method Load(net: string -> NetResult, now1: nat, now2: nat)
      requires Valid()
      modifies this
      ensures Valid()
      ensures status == StatusAfter(LoadOutcome(net, now1, now2))
      ensures requested == old(requested) + Requests(net, now1, now2)
      ensures overlayVisible == old(overlayVisible)
      ensures LoadOutcome(net, now1, now2).Failed? ==>
        overlay == old(overlay) && layers == old(layers) && nextId == old(nextId)
      ensures LoadOutcome(net, now1, now2).Loaded? ==>
        && overlay == Overlay(old(nextId), LoadOutcome(net, now1, now2).features)
        && old(overlay).id !in layers
        && (overlay.id in layers <==> overlayVisible)
    {
      status := Fetching;
      var fetched := FetchDocument(net, now1, now2);
      if fetched.Err? {
        status := Error(fetched.message);
        return;
      }
      var (gj, source) := fetched.value;
      var features := Features(gj);
      if features.None? {
        status := Error(InvalidGeoJson);
        return;
      }

      if overlay.id in layers {
        layers := layers - {overlay.id};
      }
      overlay := Overlay(nextId, features.value);
      nextId := nextId + 1;
      if overlayVisible {
        layers := layers + {overlay.id};
      }
      status := Ready(|features.value|, source);
    }
  }
}
