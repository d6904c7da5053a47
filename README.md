# Video-constraint translation and SSRC-association bookkeeping of the Jitsi Videobridge

This project models two small pieces of bookkeeping in the bridge and proves
their properties in Dafny.

**`VideoConstraintsCompat`** (`video_constraints.dfy`) models
`VideoConstraintsCompatibility`. A receiving endpoint sends legacy signalling:
the selected, pinned and recv-video endpoint sets and a maximum frame height.
The bridge turns this into a map from endpoint id to `VideoConstraints`
(ideal height, optional preferred height, optional preferred frame rate). The
map is built in three layers: recv-video endpoints first, then the selected
endpoint in large view, then the pinned endpoints. A later layer overrides an
earlier one. The four signalling fields live in a class whose setters replace
one field each. `VideoConstraintsOf` is the function that
`ComputeVideoConstraints` computes. Its contract and the lemmas beside it
state the code's actual behaviour in two places where the source comments say
otherwise:

- The comments at `VideoConstraintsCompatibility.java:83-86` and `:167-169`
  say that a selected endpoint overrides a pinned one. The pinned layer is
  written last, so a pinned endpoint always gets the pinned constraints, even
  when it is also selected (`PinnedWinsOverSelected`).
- The comment at `:134-136` describes distinct tile-view constraints. Both
  branches of the nested conditional at `:137-143` give the thumbnail
  constraints, so recv-video endpoints get the thumbnail constraints in both
  views (`RecvVideoViewConstraints`, `RecvOnlyIsThumbnail`).

The model follows the code in both cases.

**`Encodings`** (`encodings.dfy`) models `EncodingsManager`. This class holds
a map from endpoint id to a growing list of SSRC associations, plus a set of
listeners. Adding an association appends it to its endpoint's list and
notifies every listener. Subscribing registers a listener and replays every
stored association to it. Listener callbacks are recorded in a ghost
notification log. Java's `HashMap` and `ConcurrentHashSet` iterate in an
unspecified order, so each method returns, as a ghost value, the order in
which it visited the listeners or endpoints. Every property is proved for all
such orders. The class invariant `Informed` says this: for every subscribed
listener and every endpoint, the last notifications the listener received
about that endpoint are exactly the endpoint's stored list, in order.
Re-subscribing replays the lists again, and the invariant still holds.

Java `int` and `long` are the subset types `Int32` and `Long`. `Math.min` on
two ints cannot overflow.

## Model

| member | source | states |
|---|---|---|
| `VideoConstraintsCompat.Min` | jvb/src/main/java/org/jitsi/videobridge/VideoConstraintsCompatibility.java:157-158 | `Math.min` gives a value no larger than either argument and equal to one of them |
| `VideoConstraintsCompat.RecvVideoViewConstraints` | jvb/src/main/java/org/jitsi/videobridge/VideoConstraintsCompatibility.java:137-143 | the nested large-view/tile-view conditional gives the thumbnail constraints whatever the view |
| `VideoConstraintsCompat.LargeViewIsSingleSelection` | jvb/src/main/java/org/jitsi/videobridge/VideoConstraintsCompatibility.java:129 | large view holds exactly when the selected set is a single endpoint; it is off for no selected endpoint and for two or more (tile view) |
| `VideoConstraintsCompat.RecvVideoLayer` | jvb/src/main/java/org/jitsi/videobridge/VideoConstraintsCompatibility.java:132-151 | the first layer maps exactly the recv-video endpoints, each to the thumbnail constraints |
| `VideoConstraintsCompat.SelectedLayer` | jvb/src/main/java/org/jitsi/videobridge/VideoConstraintsCompatibility.java:153-171 | the second layer maps the selected endpoints only when exactly one is selected, each to the on-stage constraints |
| `VideoConstraintsCompat.PinnedLayer` | jvb/src/main/java/org/jitsi/videobridge/VideoConstraintsCompatibility.java:173-186 | the third layer maps exactly the pinned endpoints, each to the pinned constraints |
| `VideoConstraintsCompat.VideoConstraintsOf` | jvb/src/main/java/org/jitsi/videobridge/VideoConstraintsCompatibility.java:105-189 | the keys are recv-video ∪ pinned, plus selected exactly when one endpoint is selected; every pinned endpoint gets an ideal-only height `min(thumbnailMaxHeightPx, maxFrameHeight)`; the single selected endpoint, if not pinned, gets `(min(onstageIdealHeightPx, maxFrameHeight), onstagePreferredHeightPx, onstagePreferredFramerate)`; every other key is a recv-video endpoint with the thumbnail constraints |
| `VideoConstraintsCompat.TileViewIgnoresSelected` | jvb/src/main/java/org/jitsi/videobridge/VideoConstraintsCompatibility.java:129-171 | with zero or several selected endpoints (not large view), the result equals the result for an empty selected set, and a selected-only endpoint gets no entry |
| `VideoConstraintsCompat.PinnedWinsOverSelected` | jvb/src/main/java/org/jitsi/videobridge/VideoConstraintsCompatibility.java:173-186 | an endpoint that is both pinned and selected gets the pinned constraints, with no preferred height or frame rate |
| `VideoConstraintsCompat.RecvOnlyIsThumbnail` | jvb/src/main/java/org/jitsi/videobridge/VideoConstraintsCompatibility.java:137-150 | a recv-video endpoint that is neither pinned nor on stage gets the thumbnail constraints, the same as in tile view |
| `VideoConstraintsCompat.IdealHeightCapped` | jvb/src/main/java/org/jitsi/videobridge/VideoConstraintsCompatibility.java:156-186 | pinned and on-stage ideal heights never exceed `maxFrameHeight`; under the initial `Integer.MAX_VALUE` they equal the configured height |
| `VideoConstraintsCompat.NoEndpointsNoConstraints` | jvb/src/main/java/org/jitsi/videobridge/VideoConstraintsCompatibility.java:107-188 | with all three sets empty the result is the empty map |
| `VideoConstraintsCompat.VideoConstraintsCompatibility.constructor` | jvb/src/main/java/org/jitsi/videobridge/VideoConstraintsCompatibility.java:36-57 | all three sets start empty and `maxFrameHeight` starts at `Integer.MAX_VALUE` |
| `VideoConstraintsCompat.VideoConstraintsCompatibility.ComputeVideoConstraints` | jvb/src/main/java/org/jitsi/videobridge/VideoConstraintsCompatibility.java:105-189 | filling the map layer by layer gives `VideoConstraintsOf` of the current fields, and no field changes |
| `VideoConstraintsCompat.VideoConstraintsCompatibility.SetPinnedEndpoints` | jvb/src/main/java/org/jitsi/videobridge/VideoConstraintsCompatibility.java:197-200 | replaces the pinned set and leaves the other three fields as they were |
| `VideoConstraintsCompat.VideoConstraintsCompatibility.SetMaxFrameHeight` | jvb/src/main/java/org/jitsi/videobridge/VideoConstraintsCompatibility.java:208-211 | replaces `maxFrameHeight` and leaves the three sets as they were |
| `VideoConstraintsCompat.VideoConstraintsCompatibility.SetSelectedEndpoints` | jvb/src/main/java/org/jitsi/videobridge/VideoConstraintsCompatibility.java:219-222 | replaces the selected set and leaves the other three fields as they were |
| `VideoConstraintsCompat.VideoConstraintsCompatibility.SetRecvVideoEndpoints` | jvb/src/main/java/org/jitsi/videobridge/VideoConstraintsCompatibility.java:231-234 | replaces the recv-video set and leaves the other three fields as they were |
| `Encodings.Appended` | src/main/java/org/jitsi/videobridge/EncodingsManager.java:41-42 | the new map has the old endpoints plus `epId`, keeps every old list as a prefix, and `epId`'s list is one longer and ends with the new association |
| `Encodings.Announce` | src/main/java/org/jitsi/videobridge/EncodingsManager.java:44-46 | one notification per visited listener |
| `Encodings.Notes` | src/main/java/org/jitsi/videobridge/EncodingsManager.java:57-59 | one notification per association of the endpoint's list |
| `Encodings.ListenerHearsEachAddOnce` | src/main/java/org/jitsi/videobridge/EncodingsManager.java:37-54 | after any history, an addition adds exactly one notification to each listener of the set (with the added arguments) and none to others; re-subscribing a listener leaves the set unchanged, so it still hears each addition once |
| `Encodings.AppendedGrowsByOne` | src/main/java/org/jitsi/videobridge/EncodingsManager.java:39-42 | adding to `ep` makes its list the old list (or the empty one) plus the new association; no other endpoint's list changes; every old list stays a prefix; exactly one stored slot is added |
| `Encodings.ExtendsTransitive` | src/main/java/org/jitsi/videobridge/EncodingsManager.java:36-61 | a chain of updates that each remove nothing removes nothing, so the stored associations never shrink |
| `Encodings.AnnounceReachesEachOnce` | src/main/java/org/jitsi/videobridge/EncodingsManager.java:44-46 | announcing to an enumeration of the listener set reaches each listener exactly once, with exactly the added arguments, and reaches nobody outside the set |
| `Encodings.AboutAnnounce` | src/main/java/org/jitsi/videobridge/EncodingsManager.java:44-46 | an announcement tells each listener in the set the new association of that endpoint and nothing else |
| `Encodings.Replay` | src/main/java/org/jitsi/videobridge/EncodingsManager.java:56-60 | every replayed notification goes to the subscriber and names one of the visited endpoints |
| `Encodings.ReplayTellsEachList` | src/main/java/org/jitsi/videobridge/EncodingsManager.java:56-60 | in any visiting order, the replay tells the subscriber each endpoint's whole list, in list order, and tells nobody else anything |
| `Encodings.ReplayOnlyToSubscriber` | src/main/java/org/jitsi/videobridge/EncodingsManager.java:53-60 | a replay sends no notification to any other listener |
| `Encodings.ReplayCountsEveryAssociation` | src/main/java/org/jitsi/videobridge/EncodingsManager.java:56-60 | the replay holds exactly one notification per stored association |
| `Encodings.InformedOfEachAssociation` | src/main/java/org/jitsi/videobridge/EncodingsManager.java:44-60 | under the invariant, every subscribed listener has received a notification for every stored association |
| `Encodings.AddKeepsInformed` | src/main/java/org/jitsi/videobridge/EncodingsManager.java:39-47 | appending and announcing to all listeners keeps every listener informed |
| `Encodings.SubscribeKeepsInformed` | src/main/java/org/jitsi/videobridge/EncodingsManager.java:53-60 | registering a listener and replaying to it keeps all listeners, old and new, informed |
| `Encodings.EncodingsManager.constructor` | src/main/java/org/jitsi/videobridge/EncodingsManager.java:35-37 | starts with no associations, no listeners and no notifications |
| `Encodings.EncodingsManager.AddSsrcAssociation` | src/main/java/org/jitsi/videobridge/EncodingsManager.java:39-47 | the map becomes `Appended(old map, epId, (primary, secondary, type))`; the listener set is unchanged; the log grows by one notification per listener, in set-iteration order; the invariant is kept |
| `Encodings.EncodingsManager.Subscribe` | src/main/java/org/jitsi/videobridge/EncodingsManager.java:53-61 | the listener set gains `listener`; the map is unchanged; the log grows by the replay of every endpoint's list in map-iteration order; the invariant is kept |

## Left out

- Bandwidth estimation is a separate component and is not modelled.
- `getDebugState` (`VideoConstraintsCompatibility.java:236-252`) is left out. It serialises to JSON through a foreign type.
- `BitrateControllerConfig` is read from external configuration. The model takes its values as the parameter `cfg`. This includes `VideoConstraints.thumbnailVideoConstraints`, whose definition is not part of this model.
- The `VideoConstraints` class is not part of this model. Its one-argument constructor is modelled as an ideal height with no preferred height and no preferred frame rate (`IdealOnly`).
- `SsrcAssociationType` is not part of this model. It is modelled as the two-value enumeration `Rtx | Fec`.
- Listener callbacks are foreign code. Each call is recorded as one entry of the ghost notification log. A callback's own effects are not modelled, including one that re-enters the manager.
- Every listener callback is assumed to return normally. In Java an exception thrown by a callback stops the `forEach` (`EncodingsManager.java:44-46`, `:56-60`): the association or the new listener is already stored, but later listeners, or the rest of the replay, are skipped, and `Informed` would then not hold.
- Thread safety of `ConcurrentHashSet` and concurrent calls to the manager are not modelled. The listener set is a plain set, and methods run one at a time.
- `VideoConstraintsCompatibility` is modelled with calls running one at a time and with the signalled sets as values. The source reads each field into a local at a different point (`VideoConstraintsCompatibility.java:108`, `:110`, `:131`, `:173`), so a setter running during `computeVideoConstraints` can give a map mixing old and new signalling; the model takes one snapshot. The setters (`:199`, `:210`, `:221`, `:233`) store the caller's `Set` by reference, so a later change the caller makes to that set changes the next result; the model stores a copy.
- The iteration order of `HashMap` and `ConcurrentHashSet` is not modelled. Each method returns a ghost enumeration, and the properties hold for every enumeration.
- Java `null` arguments are not modelled. The source marks the sets `@NotNull`.
