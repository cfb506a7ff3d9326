/**
  The application host's registry of windows and views, and the indexes kept beside it: which view shows a file,
  which view shows the settings, the active and visible views, the order of last use, and the activity each view is
  given resources for.
*/
module Workspaces {
  import opened Wrappers

  type WindowId = nat
  type ViewId = nat
  type Handle = nat
  type Path = string

  datatype Place = Place(window: WindowId, view: ViewId)

  /** A view holds the file it shows, if any; the settings view and empty views hold none. */
  datatype WindowRecord = WindowRecord(views: map<ViewId, Option<Path>>, active: Option<ViewId>, handle: Handle)

  datatype Activity =
    ForegroundInteractive | ForegroundVisible | ForegroundIdle | BackgroundWarm | BackgroundCold | Suspended

  datatype Opened = Existing(place: Place) | Fresh(place: Place) | Reused(place: Place) | NotOpened

  // ---- The window table ----

  type Windows = map<WindowId, WindowRecord>
  type Homes = map<ViewId, WindowId>

  predicate Holds(windows: Windows, w: WindowId, v: ViewId) { w in windows && v in windows[w].views }

  /** Every view lives in one window, its home. */
  ghost predicate Housed(windows: Windows, home: Homes) {
    && (forall v :: v in home ==> Holds(windows, home[v], v))
    && (forall w, v :: Holds(windows, w, v) ==> v in home && home[v] == w)
  }

  /** The path index says what the table says: an open file is shown by exactly the view it is indexed under. */
  ghost predicate Indexed(windows: Windows, paths: map<Path, Place>) {
    && (forall p :: p in paths ==>
          Holds(windows, paths[p].window, paths[p].view) && windows[paths[p].window].views[paths[p].view] == Some(p))
    && (forall w, v :: Holds(windows, w, v) && windows[w].views[v].Some? ==>
          windows[w].views[v].value in paths && paths[windows[w].views[v].value] == Place(w, v))
  }

  ghost predicate OwnActive(windows: Windows) {
    forall w :: w in windows && windows[w].active.Some? ==> Holds(windows, w, windows[w].active.value)
  }

  ghost predicate Sound(windows: Windows, home: Homes, paths: map<Path, Place>, settings: Option<Place>, next: nat) {
    && Housed(windows, home) && Indexed(windows, paths) && OwnActive(windows)
    && (settings.Some? ==> Holds(windows, settings.value.window, settings.value.view))
    && (forall v :: v in home ==> v < next)
    && (forall w :: w in windows ==> w < next)
  }

  // ---- Order of use and activity ----

  ghost predicate Distinct(s: seq<ViewId>) {
    forall i, j :: 0 <= i < j < |s| ==> s[i] != s[j]
  }

  function Retain(s: seq<ViewId>, gone: set<ViewId>): (r: seq<ViewId>)
    ensures |r| <= |s|
    ensures forall v :: v in r <==> v in s && v !in gone
  {
    if s == [] then [] else (if s[0] in gone then [] else [s[0]]) + Retain(s[1..], gone)
  }

  lemma {:induction false} RetainKeepsDistinct(s: seq<ViewId>, gone: set<ViewId>)
    requires Distinct(s)
    ensures Distinct(Retain(s, gone))
  {
    if s != [] {
      assert forall i, j :: 0 <= i < j < |s[1..]| ==> s[1..][i] == s[i + 1] && s[1..][j] == s[j + 1];
      RetainKeepsDistinct(s[1..], gone);
      assert s[0] !in Retain(s[1..], gone);
    }
  }

  /** Retaining keeps the order: what stays is in front of what it was in front of. */
  lemma RetainKeepsOrder(s: seq<ViewId>, gone: set<ViewId>, i: nat, j: nat)
    requires i < j < |Retain(s, gone)|
    ensures exists k, l :: 0 <= k < l < |s| && s[k] == Retain(s, gone)[i] && s[l] == Retain(s, gone)[j]
  {
    var k, l := Origins(s, gone, i, j);
  }

  lemma Origins(s: seq<ViewId>, gone: set<ViewId>, i: nat, j: nat) returns (k: nat, l: nat)
    requires i < j < |Retain(s, gone)|
    ensures k < l < |s| && s[k] == Retain(s, gone)[i] && s[l] == Retain(s, gone)[j]
  {
    var rest := Retain(s[1..], gone);
    if s[0] in gone {
      k, l := Origins(s[1..], gone, i, j);
      k, l := k + 1, l + 1;
    } else if i > 0 {
      k, l := Origins(s[1..], gone, i - 1, j - 1);
      k, l := k + 1, l + 1;
    } else {
      assert rest[j - 1] in s[1..];
      var later :| 0 <= later < |s[1..]| && s[1..][later] == rest[j - 1];
      k, l := 0, later + 1;
    }
  }

  /** What a view deserves, from its place in the order of last use. */
  function Level(view: ViewId, index: nat, active: Option<ViewId>, visible: set<ViewId>): Activity {
    if active == Some(view) then ForegroundInteractive
    else if view in visible then ForegroundVisible
    else if index < 2 then BackgroundWarm
    else if index < 4 then BackgroundCold
    else Suspended
  }

  /** Every view has the activity it deserves; only the active one may be idle instead. */
  ghost predicate Ranked(mru: seq<ViewId>, participants: map<ViewId, Activity>,
                         active: Option<ViewId>, visible: set<ViewId>) {
    forall i :: 0 <= i < |mru| ==>
      && mru[i] in participants
      && (participants[mru[i]] == Level(mru[i], i, active, visible)
          || (active == Some(mru[i]) && participants[mru[i]] == ForegroundIdle))
  }

  ghost predicate Listed(mru: seq<ViewId>, participants: map<ViewId, Activity>) {
    Distinct(mru) && forall v :: v in mru <==> v in participants
  }

  /** The order of use lists every participant once, and nothing else; active and visible views are participants. */
  ghost predicate OrderIsSound(mru: seq<ViewId>, participants: map<ViewId, Activity>,
                               active: Option<ViewId>, visible: set<ViewId>) {
    && Listed(mru, participants) && Among(active, visible, participants)
    && Ranked(mru, participants, active, visible)
  }

  predicate Among(active: Option<ViewId>, visible: set<ViewId>, participants: map<ViewId, Activity>) {
    (active.Some? ==> active.value in participants) && visible <= participants.Keys
  }

  predicate Hidden(v: ViewId, active: Option<ViewId>, visible: set<ViewId>) { active != Some(v) && v !in visible }

  /** The active view is in the foreground, the ones beside it are visible; the others fade with the time since their use. */
  lemma RanksMean(mru: seq<ViewId>, participants: map<ViewId, Activity>, active: Option<ViewId>, visible: set<ViewId>,
                  i: nat)
    requires OrderIsSound(mru, participants, active, visible) && i < |mru|
    ensures var v, a := mru[i], participants[mru[i]];
            && (active == Some(v) <==> a.ForegroundInteractive? || a.ForegroundIdle?)
            && (a.ForegroundVisible? <==> active != Some(v) && v in visible)
            && (a.BackgroundWarm? <==> Hidden(v, active, visible) && i < 2)
            && (a.BackgroundCold? <==> Hidden(v, active, visible) && 2 <= i < 4)
            && (a.Suspended? <==> Hidden(v, active, visible) && 4 <= i)
  {
  }

  /** Only the active view may be interactive. */
  lemma OneInteractive(mru: seq<ViewId>, participants: map<ViewId, Activity>,
                       active: Option<ViewId>, visible: set<ViewId>, v: ViewId, w: ViewId)
    requires OrderIsSound(mru, participants, active, visible) && v in participants && w in participants
    requires participants[v].ForegroundInteractive? && participants[w].ForegroundInteractive?
    ensures v == w && active == Some(v)
  {
    var i :| 0 <= i < |mru| && mru[i] == v;
    var j :| 0 <= j < |mru| && mru[j] == w;
  }

  /** However many views are open, at most four hidden ones are kept awake. */
  lemma FewHiddenAwake(mru: seq<ViewId>, participants: map<ViewId, Activity>,
                       active: Option<ViewId>, visible: set<ViewId>)
    requires OrderIsSound(mru, participants, active, visible)
    ensures |set v | v in participants && Hidden(v, active, visible) && !participants[v].Suspended?| <= 4
  {
    var awake := set v | v in participants && Hidden(v, active, visible) && !participants[v].Suspended?;
    var front := mru[..if |mru| < 4 then |mru| else 4];
    forall v | v in awake ensures v in front {
      var i :| 0 <= i < |mru| && mru[i] == v;
      assert i < 4 && front[i] == v;
    }
    MembersFit(awake, front);
  }

  lemma {:induction false} MembersFit(s: set<ViewId>, q: seq<ViewId>)
    requires forall v :: v in s ==> v in q
    ensures |s| <= |q|
  {
    if q == [] {
      assert s == {};
    } else {
      forall v | v in s - {q[0]} ensures v in q[1..] {
        var i :| 0 <= i < |q| && q[i] == v;
        assert q[1..][i - 1] == v;
      }
      MembersFit(s - {q[0]}, q[1..]);
    }
  }

  // ---- Changes to the table ----

  function PathsWithout(paths: map<Path, Place>, v: ViewId): map<Path, Place> {
    map p | p in paths && paths[p].view != v :: paths[p]
  }

  function PathsMoved(paths: map<Path, Place>, v: ViewId, target: WindowId): map<Path, Place> {
    map p | p in paths :: if paths[p].view == v then Place(target, v) else paths[p]
  }

  function PathsWithin(paths: map<Path, Place>, windows: Windows): map<Path, Place> {
    map p | p in paths && paths[p].window in windows :: paths[p]
  }

  function WithPath(paths: map<Path, Place>, file: Option<Path>, place: Place): map<Path, Place> {
    if file.Some? then paths[file.value := place] else paths
  }

  function ViewsIn(windows: Windows, w: WindowId): map<ViewId, Option<Path>> {
    if w in windows then windows[w].views else map[]
  }

  /** A view that stays where it is and shows what it shows. */
  ghost predicate Stays(windows: Windows, windows': Windows, w: WindowId, v: ViewId) {
    Holds(windows, w, v) && Holds(windows', w, v) && windows'[w].views[v] == windows[w].views[v]
  }

  /** A view that is nowhere yet, or shows nothing yet, may show a file that is not open. */
  lemma Shown(windows: Windows, home: Homes, paths: map<Path, Place>, settings: Option<Place>, next: nat,
              w: WindowId, r: WindowRecord, v: ViewId, file: Option<Path>)
    requires Sound(windows, home, paths, settings, next) && v < next && w < next
    requires v !in home || (Holds(windows, w, v) && windows[w].views[v].None?)
    requires r.views == ViewsIn(windows, w)[v := file] && (r.active.Some? ==> r.active.value in r.views)
    requires file.Some? ==> file.value !in paths
    ensures Sound(windows[w := r], home[v := w], WithPath(paths, file, Place(w, v)), settings, next)
    ensures home[v := w].Keys == home.Keys + {v}
  {
    hide Indexed, WithPath;
    ShownHolds(windows, home, w, r, v, file);
    ShownIndexed(windows, windows[w := r], paths, w, v, file);
  }

  lemma ShownHolds(windows: Windows, home: Homes, w: WindowId, r: WindowRecord, v: ViewId, file: Option<Path>)
    requires Housed(windows, home) && (v in home ==> home[v] == w)
    requires r.views == ViewsIn(windows, w)[v := file]
    ensures Housed(windows[w := r], home[v := w])
    ensures forall k, u :: Holds(windows[w := r], k, u) <==> Holds(windows, k, u) || (k == w && u == v)
    ensures forall k, u :: Holds(windows, k, u) && !(k == w && u == v) ==> Stays(windows, windows[w := r], k, u)
  {
    forall k, u ensures Holds(windows[w := r], k, u) <==> Holds(windows, k, u) || (k == w && u == v) {
    }
    var windows', home' := windows[w := r], home[v := w];
    forall u | u in home' ensures Holds(windows', home'[u], u) {
      assert u != v ==> Holds(windows, home[u], u);
    }
    forall k, u | Holds(windows', k, u) ensures u in home' && home'[u] == k {
      assert Holds(windows, k, u) ==> u in home && home[u] == k;
    }
  }

  lemma ShownIndexed(windows: Windows, windows': Windows, paths: map<Path, Place>, w: WindowId, v: ViewId, file: Option<Path>)
    requires Indexed(windows, paths) && (file.Some? ==> file.value !in paths)
    requires forall k, u :: Holds(windows', k, u) <==> Holds(windows, k, u) || (k == w && u == v)
    requires forall k, u :: Holds(windows, k, u) && !(k == w && u == v) ==> Stays(windows, windows', k, u)
    requires Holds(windows, w, v) ==> windows[w].views[v].None?
    requires Holds(windows', w, v) && windows'[w].views[v] == file
    ensures Indexed(windows', WithPath(paths, file, Place(w, v)))
  {
  }

  lemma Dropped(windows: Windows, home: Homes, paths: map<Path, Place>, settings: Option<Place>, next: nat,
                w: WindowId, r: WindowRecord, v: ViewId)
    requires Sound(windows, home, paths, settings, next) && Holds(windows, w, v)
    requires r.views == windows[w].views - {v} && (r.active.Some? ==> r.active.value in r.views)
    ensures Sound(windows[w := r], home - {v}, PathsWithout(paths, v),
                  if settings.Some? && settings.value.view == v then None else settings, next)
  {
    hide Indexed, PathsWithout;
    DroppedHolds(windows, home, w, r, v);
    DroppedIndexed(windows, windows[w := r], paths, v);
  }

  lemma DroppedHolds(windows: Windows, home: Homes, w: WindowId, r: WindowRecord, v: ViewId)
    requires Housed(windows, home) && Holds(windows, w, v) && r.views == windows[w].views - {v}
    ensures Housed(windows[w := r], home - {v})
    ensures forall k, u :: Holds(windows[w := r], k, u) <==> Holds(windows, k, u) && u != v
    ensures forall k, u :: Holds(windows, k, u) && u != v ==> Stays(windows, windows[w := r], k, u)
  {
    forall k, u ensures Holds(windows[w := r], k, u) <==> Holds(windows, k, u) && u != v {
      assert Holds(windows, k, v) ==> k == w;
    }
    var windows', home' := windows[w := r], home - {v};
    forall u | u in home' ensures Holds(windows', home'[u], u) {
      assert Holds(windows, home[u], u);
    }
    forall k, u | Holds(windows', k, u) ensures u in home' && home'[u] == k {
      assert Holds(windows, k, u) && u != v;
    }
  }

  lemma DroppedIndexed(windows: Windows, windows': Windows, paths: map<Path, Place>, v: ViewId)
    requires Indexed(windows, paths)
    requires forall k, u :: Holds(windows', k, u) <==> Holds(windows, k, u) && u != v
    requires forall k, u :: Holds(windows, k, u) && u != v ==> Stays(windows, windows', k, u)
    ensures Indexed(windows', PathsWithout(paths, v))
  {
  }

  function Moved(windows: Windows, source: WindowId, target: WindowId, v: ViewId): Windows {
    var file := if Holds(windows, source, v) then windows[source].views[v] else None;
    var left := if source in windows
                then windows[source := windows[source].(views := windows[source].views - {v},
                                                        active := if windows[source].active == Some(v) then None
                                                                  else windows[source].active)]
                else windows;
    if target in left then left[target := left[target].(views := left[target].views[v := file], active := Some(v))] else left
  }

  lemma Carried(windows: Windows, home: Homes, paths: map<Path, Place>, settings: Option<Place>, next: nat,
                source: WindowId, target: WindowId, v: ViewId)
    requires Sound(windows, home, paths, settings, next) && Holds(windows, source, v) && target in windows && source != target
    ensures Sound(Moved(windows, source, target, v), home[v := target], PathsMoved(paths, v, target),
                  if settings.Some? && settings.value.view == v then Some(Place(target, v)) else settings, next)
    ensures home[v := target].Keys == home.Keys
  {
    hide Indexed, PathsMoved, Moved;
    CarriedHolds(windows, home, source, target, v);
    CarriedActive(windows, home, source, target, v);
    CarriedIndexed(windows, Moved(windows, source, target, v), paths, source, target, v);
  }

  lemma CarriedHolds(windows: Windows, home: Homes, source: WindowId, target: WindowId, v: ViewId)
    requires Housed(windows, home) && Holds(windows, source, v) && target in windows && source != target
    ensures var windows' := Moved(windows, source, target, v);
            && Housed(windows', home[v := target]) && windows'.Keys == windows.Keys
            && (forall k, u :: Holds(windows', k, u) <==> if u == v then k == target else Holds(windows, k, u))
            && (forall k, u :: Holds(windows, k, u) && u != v ==> Stays(windows, windows', k, u))
            && Holds(windows', target, v) && windows'[target].views[v] == windows[source].views[v]
  {
    var windows' := Moved(windows, source, target, v);
    forall k, u ensures Holds(windows', k, u) <==> if u == v then k == target else Holds(windows, k, u) {
      assert Holds(windows, k, v) ==> k == source;
    }
  }

  lemma CarriedActive(windows: Windows, home: Homes, source: WindowId, target: WindowId, v: ViewId)
    requires Housed(windows, home) && OwnActive(windows) && Holds(windows, source, v) && target in windows && source != target
    ensures OwnActive(Moved(windows, source, target, v))
  {
    var windows' := Moved(windows, source, target, v);
    CarriedHolds(windows, home, source, target, v);
    forall k | k in windows' && windows'[k].active.Some? ensures Holds(windows', k, windows'[k].active.value) {
      assert k != target ==> windows'[k].active == windows[k].active && Holds(windows, k, windows[k].active.value);
      assert Holds(windows, k, v) ==> k == source;
    }
  }

  lemma CarriedIndexed(windows: Windows, windows': Windows, paths: map<Path, Place>,
                       source: WindowId, target: WindowId, v: ViewId)
    requires Indexed(windows, paths) && Holds(windows, source, v) && (forall k :: Holds(windows, k, v) ==> k == source)
    requires forall k, u :: Holds(windows', k, u) <==> if u == v then k == target else Holds(windows, k, u)
    requires forall k, u :: Holds(windows, k, u) && u != v ==> Stays(windows, windows', k, u)
    requires Holds(windows', target, v) && windows'[target].views[v] == windows[source].views[v]
    ensures Indexed(windows', PathsMoved(paths, v, target))
  {
  }

  function OpenOnly(windows: Windows, open: set<Handle>): Windows {
    map w | w in windows && windows[w].handle in open :: windows[w]
  }

  /** A window may have any of its views as the active one, or none. */
  lemma Selected(windows: Windows, home: Homes, paths: map<Path, Place>, settings: Option<Place>, next: nat,
                 w: WindowId, v: Option<ViewId>)
    requires Sound(windows, home, paths, settings, next) && w in windows && (v.Some? ==> Holds(windows, w, v.value))
    ensures Sound(windows[w := windows[w].(active := v)], home, paths, settings, next)
  {
    hide Indexed;
    var windows' := windows[w := windows[w].(active := v)];
    forall k, u ensures Holds(windows', k, u) <==> Holds(windows, k, u) {
    }
    SameIndexed(windows, windows', paths);
  }

  lemma SameIndexed(windows: Windows, windows': Windows, paths: map<Path, Place>)
    requires Indexed(windows, paths) && windows'.Keys == windows.Keys
    requires forall w :: w in windows ==> windows'[w].views == windows[w].views
    ensures Indexed(windows', paths)
  {
    forall k, u ensures Holds(windows', k, u) <==> Holds(windows, k, u) {
    }
  }

  /** The views of the windows that are no longer open. */
  function ClosedViews(windows: Windows, open: set<Handle>): set<ViewId> {
    set w, v | w in windows && windows[w].handle !in open && v in windows[w].views :: v
  }

  lemma Narrowed(windows: Windows, home: Homes, paths: map<Path, Place>, settings: Option<Place>, next: nat,
                 open: set<Handle>)
    requires Sound(windows, home, paths, settings, next)
    ensures var kept := OpenOnly(windows, open);
            Sound(kept, home - ClosedViews(windows, open), PathsWithin(paths, kept),
                  if settings.Some? && !Holds(kept, settings.value.window, settings.value.view) then None else settings, next)
  {
    hide ClosedViews, Indexed, PathsWithin;
    var kept := OpenOnly(windows, open);
    NarrowedIndexed(windows, kept, paths);
    forall v ensures v in home - ClosedViews(windows, open) <==> v in home && home[v] in kept {
      Closed(windows, home, open, v);
    }
    forall k, u ensures Holds(kept, k, u) <==> Holds(windows, k, u) && k in kept {
    }
  }

  lemma NarrowedIndexed(windows: Windows, kept: Windows, paths: map<Path, Place>)
    requires Indexed(windows, paths) && kept.Keys <= windows.Keys
    requires forall w :: w in kept ==> kept[w] == windows[w]
    ensures Indexed(kept, PathsWithin(paths, kept))
  {
    forall k, u ensures Holds(kept, k, u) <==> Holds(windows, k, u) && k in kept {
    }
  }

  lemma Closed(windows: Windows, home: Homes, open: set<Handle>, v: ViewId)
    requires Housed(windows, home)
    ensures v in ClosedViews(windows, open) <==> v in home && windows[home[v]].handle !in open
  {
    if v in ClosedViews(windows, open) {
      var w :| w in windows && windows[w].handle !in open && v in windows[w].views;
      assert Holds(windows, w, v);
    } else if v in home {
      assert Holds(windows, home[v], v);
    }
  }

  // ---- The host ----

  class ApplicationHost {
    var windows: Windows
    var paths: map<Path, Place>
    var settingsView: Option<Place>
    var activeView: Option<ViewId>
    var visibleViews: set<ViewId>
    var viewMru: seq<ViewId>
    var participants: map<ViewId, Activity>
    /** Every window and view identifier given out so far is below this. */
    var nextId: nat

    /** The window each view lives in. */
    ghost var home: Homes

    /** The indexes agree with the window table, and the resource participants are exactly its views. */
    ghost predicate Valid()
      reads this
    {
      && Sound(windows, home, paths, settingsView, nextId) && participants.Keys == home.Keys
      && OrderIsSound(viewMru, participants, activeView, visibleViews)
    }

    /** The views registered in any window. */
    ghost function Registered(): set<ViewId>
      reads this
    {
      home.Keys
    }

    constructor ()
      ensures Valid() && windows == map[] && viewMru == [] && paths == map[] && settingsView.None? && activeView.None?
    {
      windows, paths, settingsView, activeView, visibleViews := map[], map[], None, None, {};
      viewMru, participants, nextId, home := [], map[], 1, map[];
    }

    /** Gives every view in the order of last use the activity it deserves. */
    method RefreshActivityLevels()
      requires Distinct(viewMru)
      modifies this`participants
      ensures participants.Keys == old(participants.Keys)
      ensures forall i :: 0 <= i < |viewMru| && viewMru[i] in participants ==>
                participants[viewMru[i]] == Level(viewMru[i], i, activeView, visibleViews)
      ensures old(Listed(viewMru, participants)) && Among(activeView, visibleViews, participants) ==>
                OrderIsSound(viewMru, participants, activeView, visibleViews)
    {
      for index := 0 to |viewMru|
        invariant participants.Keys == old(participants.Keys)
        invariant forall i :: 0 <= i < index && viewMru[i] in participants ==>
            participants[viewMru[i]] == Level(viewMru[i], i, activeView, visibleViews)
      {
        var view := viewMru[index];
        if view in participants {
          participants := participants[view := Level(view, index, activeView, visibleViews)];
        }
      }
    }

    /**
      A view comes to the front; it and the views beside it are the visible ones. A new tab does this before its view
      is registered; then only the order of the others is sound.
    */
    method SetActiveViews(view: ViewId, visible: set<ViewId>) returns (changed: bool)
      requires OrderIsSound(viewMru, participants, activeView, visibleViews)
      modifies this`activeView, this`visibleViews, this`viewMru, this`participants
      ensures changed == (old(activeView) != Some(view))
      ensures activeView == Some(view) && visibleViews == visible + {view}
      ensures viewMru == [view] + Retain(old(viewMru), {view}) && participants.Keys == old(participants.Keys)
      ensures view in participants ==> participants[view].ForegroundInteractive?
      ensures view in participants && visible <= participants.Keys ==>
                OrderIsSound(viewMru, participants, activeView, visibleViews)
    {
      hide Sound, Level, Retain, Listed, Ranked;
      changed := activeView != Some(view);
      activeView := Some(view);
      visibleViews := visible + {view};
      Fronted(viewMru, participants, view);
      viewMru := [view] + Retain(viewMru, {view});
      RefreshActivityLevels();
      LevelOfActive(view, 0, visibleViews);
      assert viewMru[0] == view;
    }

    /** A tab of a window is selected: its view becomes the window's and the workspace's active one. */
    method SelectTabViews(window: WindowId, view: ViewId, visible: set<ViewId>) returns (changed: bool)
      requires Valid()
      modifies this`windows, this`activeView, this`visibleViews, this`viewMru, this`participants
      ensures changed == (old(activeView) != Some(view))
      ensures windows == if window in old(windows)
                         then old(windows)[window := old(windows)[window].(active := Some(view))] else old(windows)
      ensures activeView == Some(view) && visibleViews == visible + {view}
      ensures viewMru == [view] + Retain(old(viewMru), {view}) && participants.Keys == old(participants.Keys)
      ensures old(Holds(windows, window, view)) && visible <= Registered() ==> Valid()
      ensures window in windows && view !in Registered() && view < nextId && visible <= {view} ==> Awaits(window, view)
    {
      hide Sound, OrderIsSound, Retain, Distinct;
      ghost var before, listed := windows, viewMru;
      if window in windows {
        if view in windows[window].views {
          IsHeld(windows, home, paths, settingsView, nextId, window, view);
          Selected(windows, home, paths, settingsView, nextId, window, Some(view));
        }
        Selected(windows, home, paths, settingsView, nextId, window, None);
        windows := windows[window := windows[window].(active := Some(view))];
        assert windows[window := windows[window].(active := None)] == before[window := before[window].(active := None)];
      }
      OrderLists(viewMru, participants, activeView, visibleViews);
      if view !in participants {
        RetainFront(listed, view);
      }
      changed := SetActiveViews(view, visible);
    }

    /** A tab has come to the front of its window although its view is not registered yet. */
    ghost predicate Awaits(window: WindowId, view: ViewId)
      reads this
    {
      && window in windows && windows[window].active == Some(view) && view !in home && view < nextId
      && Sound(windows[window := windows[window].(active := None)], home, paths, settingsView, nextId)
      && participants.Keys == home.Keys
      && activeView == Some(view) && visibleViews == {view} && Listed(Retain(viewMru, {view}), participants)
    }

    /** Hands every changed resource allocation to the window that holds its view; none is lost. */
    method ReconcileTargets(changes: seq<(ViewId, nat)>) returns (targets: seq<(Handle, ViewId, nat)>)
      requires Housed(windows, home) && participants.Keys == home.Keys
      requires forall i :: 0 <= i < |changes| ==> changes[i].0 in participants
      ensures |targets| == |changes|
      ensures forall i :: 0 <= i < |changes| ==>
                && targets[i].1 == changes[i].0 && targets[i].2 == changes[i].1
                && ShownBehind(windows, changes[i].0, targets[i].0)
    {
      hide ShownBehind;
      targets := [];
      for i := 0 to |changes|
        invariant |targets| == i
        invariant forall j :: 0 <= j < i ==>
                    && targets[j].1 == changes[j].0 && targets[j].2 == changes[j].1
                    && ShownBehind(windows, changes[j].0, targets[j].0)
      {
        var view := changes[i].0;
        assert Holds(windows, home[view], view);
        var w :| w in windows && view in windows[w].views;
        IsShownBehind(windows, w, view);
        targets := targets + [(windows[w].handle, view, changes[i].1)];
      }
    }

    /** Allocations can be handed out at any time, also while a new tab is waiting for its view to be registered. */
    lemma AlwaysHoused(window: WindowId, view: ViewId)
      requires Valid() || Awaits(window, view)
      ensures Housed(windows, home) && participants.Keys == home.Keys
    {
      if !Valid() {
        var calm := windows[window := windows[window].(active := None)];
        forall k, u ensures Holds(windows, k, u) <==> Holds(calm, k, u) {
        }
      }
    }

    /** A new view waits at the back of the order of use. */
    method RegisterParticipant(view: ViewId)
      requires Listed(Retain(viewMru, {view}), participants - {view})
      modifies this`viewMru, this`participants
      ensures viewMru == Retain(old(viewMru), {view}) + [view] && participants.Keys == old(participants.Keys) + {view}
      ensures Among(activeView, visibleViews, participants) ==>
                OrderIsSound(viewMru, participants, activeView, visibleViews)
    {
      hide Level, Retain, Listed, Ranked;
      Backed(Retain(viewMru, {view}), participants, view, BackgroundWarm);
      participants := participants[view := BackgroundWarm];
      viewMru := Retain(viewMru, {view}) + [view];
      RefreshActivityLevels();
    }

    /** A window and a view nobody knows yet, and a file no view shows. */
    ghost predicate Unknown(view: ViewId, file: Option<Path>)
      reads this
    {
      view !in Registered() && view < nextId && (file.Some? ==> file.value !in paths)
    }

    method InsertWindow(window: WindowId, view: ViewId, file: Option<Path>, handle: Handle)
      requires Valid()
      modifies this`windows, this`home, this`paths, this`viewMru, this`participants
      ensures windows == old(windows)[window := WindowRecord(map[view := file], Some(view), handle)]
      ensures paths == WithPath(old(paths), file, Place(window, view))
      ensures viewMru == Retain(old(viewMru), {view}) + [view] && participants.Keys == old(participants.Keys) + {view}
      ensures old(Unknown(view, file)) && window !in old(windows) && window < nextId ==>
                Valid() && Registered() == old(Registered()) + {view} && viewMru == old(viewMru) + [view]
    {
      hide Sound, OrderIsSound, Retain, Listed, WithPath;
      var record := WindowRecord(map[view := file], Some(view), handle);
      OrderLists(viewMru, participants, activeView, visibleViews);
      RetainedAreListed(viewMru, participants, {view});
      if Unknown(view, file) && window !in windows && window < nextId {
        NotHeld(windows, home, paths, settingsView, nextId, view);
        Shown(windows, home, paths, settingsView, nextId, window, record, view, file);
        RetainNothing(viewMru, view);
        home := home[view := window];
      }
      windows := windows[window := record];
      paths := WithPath(paths, file, Place(window, view));
      RegisterParticipant(view);
    }

    method RegisterView(window: WindowId, view: ViewId, file: Option<Path>)
      requires Valid() || Awaits(window, view)
      modifies this`windows, this`home, this`paths, this`viewMru, this`participants
      ensures windows
              == if window in old(windows)
                 then old(windows)[window := old(windows)[window].(views := old(windows)[window].views[view := file],
                                                                   active := Some(view))]
                 else old(windows)
      ensures paths == WithPath(old(paths), file, Place(window, view))
      ensures viewMru == Retain(old(viewMru), {view}) + [view] && participants.Keys == old(participants.Keys) + {view}
      ensures old(Unknown(view, file)) && window in windows ==> Valid() && Registered() == old(Registered()) + {view}
    {
      hide Sound, OrderIsSound, Retain, Listed, WithPath;
      IsListed(window, view);
      if window in windows {
        var record := windows[window].(views := windows[window].views[view := file], active := Some(view));
        if Unknown(view, file) {
          ghost var calm := if Awaits(window, view) then windows[window := windows[window].(active := None)] else windows;
          IsKnown(calm, home, paths, settingsView, nextId, window);
          NotHeld(calm, home, paths, settingsView, nextId, view);
          Shown(calm, home, paths, settingsView, nextId, window, record, view, file);
          assert calm[window := record] == windows[window := record];
          home := home[view := window];
        }
        windows := windows[window := record];
      }
      paths := WithPath(paths, file, Place(window, view));
      RegisterParticipant(view);
    }

    lemma IsListed(window: WindowId, view: ViewId)
      requires Valid() || Awaits(window, view)
      ensures Listed(Retain(viewMru, {view}), participants - {view}) && participants.Keys == home.Keys
      ensures (activeView.Some? ==> activeView.value in home.Keys + {view}) && visibleViews <= home.Keys + {view}
    {
      hide Sound, Retain;
      if Valid() {
        RetainedAreListed(viewMru, participants, {view});
      } else {
        assert participants - {view} == participants;
      }
    }

    /** A fresh identifier for a window or a view. */
    method Allocate() returns (id: nat)
      requires Valid()
      modifies this`nextId
      ensures Valid() && id == old(nextId) && nextId == id + 1
      ensures id !in windows && id !in Registered()
    {
      id := nextId;
      nextId := nextId + 1;
    }

    /** Whether the active view of a window shows no file. */
    predicate EmptyPdfWindow(w: WindowId)
      reads this
    {
      && w in windows && windows[w].active.Some? && windows[w].active.value in windows[w].views
      && windows[w].views[windows[w].active.value].None?
    }

    /** A view that is open already is brought to the front of its window, with the views beside it. */
    twostate predicate BroughtForward(place: Place, beside: set<ViewId>)
      reads this
    {
      && place.window in old(windows)
      && windows == old(windows)[place.window := old(windows)[place.window].(active := Some(place.view))]
      && paths == old(paths) && settingsView == old(settingsView) && Registered() == old(Registered())
      && activeView == Some(place.view) && visibleViews == beside + {place.view}
      && viewMru == [place.view] + Retain(old(viewMru), {place.view})
    }

    /** Opens a window on a file, unless the file is open already: then its view comes forward. */
    method OpenPdfWindow(file: Option<Path>, handle: Handle, opens: bool, beside: set<ViewId>) returns (r: Opened)
      requires Valid() && beside <= Registered()
      modifies this
      ensures Valid() && settingsView == old(settingsView)
      ensures r.Existing? <==> file.Some? && file.value in old(paths)
      ensures r.Existing? ==> file.Some? && file.value in paths && r.place == paths[file.value]
      ensures r.Existing? ==> BroughtForward(r.place, beside)
      ensures r.NotOpened? ==> windows == old(windows) && paths == old(paths) && activeView == old(activeView)
      ensures !r.Reused? && (r.Fresh? ==> opens)
      ensures r.Fresh? ==>
                && Registered() == old(Registered()) + {r.place.view} && r.place.view !in old(Registered())
                && r.place.window !in old(windows) && Holds(windows, r.place.window, r.place.view)
                && paths == WithPath(old(paths), file, r.place)
                && activeView == Some(r.place.view) && visibleViews == {r.place.view}
                && viewMru == [r.place.view] + old(viewMru)
    {
      hide Sound, OrderIsSound, WithPath, Retain;
      if file.Some? && file.value in paths {
        ComeForward(file.value, beside);
        return Existing(paths[file.value]);
      }
      var window := Allocate();
      var view := Allocate();
      if !opens {
        return NotOpened;
      }
      InsertWindow(window, view, file, handle);
      NotListed(old(viewMru), old(participants), old(activeView), old(visibleViews), view);
      var _ := SetActiveViews(view, {view});
      r := Fresh(Place(window, view));
    }

    method ComeForward(file: Path, beside: set<ViewId>)
      requires Valid() && file in paths && beside <= Registered()
      modifies this
      ensures Valid() && BroughtForward(old(paths)[file], beside)
    {
      hide Sound, OrderIsSound, Retain;
      var place := paths[file];
      PathIsHeld(windows, home, paths, settingsView, nextId, file);
      var _ := SelectTabViews(place.window, place.view, beside);
    }

    /**
      Opens a file from a window: finds it if it is open already, else shows it in the window's active view if that
      shows nothing, else in a new tab. A window whose active view is the settings view counts as showing nothing. A new
      tab comes forward before its view is registered.
    */
    method OpenPdfFrom(source: WindowId, file: Path, beside: set<ViewId>) returns (r: Opened)
      requires Valid() && source in windows && beside <= Registered()
      modifies this
      ensures Valid() && settingsView == old(settingsView) && file in paths
      ensures r.Existing? <==> file in old(paths)
      ensures r.Existing? ==> r.place == paths[file] && BroughtForward(r.place, beside)
      ensures !r.NotOpened? && (!r.Existing? ==> r.place.window == source && paths == old(paths)[file := r.place])
      ensures r.Reused? <==> file !in old(paths) && old(EmptyPdfWindow(source))
      ensures r.Reused? ==>
                && old(windows)[source].active == Some(r.place.view) && Registered() == old(Registered())
                && activeView == old(activeView) && viewMru == old(viewMru) && participants == old(participants)
      ensures r.Fresh? ==>
                && Registered() == old(Registered()) + {r.place.view} && r.place.view !in old(Registered())
                && activeView == Some(r.place.view) && visibleViews == {r.place.view}
                && viewMru == [r.place.view] + old(viewMru)
      ensures old(SettingsShowNothing()) ==>
                (SettingsShowNothing() <==>
                   !(file !in old(paths) && settingsView.Some? && settingsView.value.window == source
                     && old(windows)[source].active == Some(settingsView.value.view)))
    {
      hide Sound, OrderIsSound, Retain;
      SettingsAreHeld(windows, home, paths, settingsView, nextId);
      if file in paths {
        ComeForward(file, beside);
        return Existing(paths[file]);
      }
      if EmptyPdfWindow(source) {
        var view := windows[source].active.value;
        r := Reused(Place(source, view));
        ShowIn(source, view, file);
        return;
      }
      var view := Allocate();
      AddTab(source, view, Some(file));
      r := Fresh(Place(source, view));
    }

    /** A new tab comes forward, is registered, and comes forward again. */
    method AddTab(window: WindowId, view: ViewId, file: Option<Path>)
      requires Valid() && window in windows && Unknown(view, file)
      modifies this`windows, this`home, this`paths, this`viewMru, this`participants, this`activeView, this`visibleViews
      ensures Valid() && Registered() == old(Registered()) + {view} && Holds(windows, window, view)
      ensures windows == old(windows)[window := old(windows)[window].(views := old(windows)[window].views[view := file],
                                                                      active := Some(view))]
      ensures paths == WithPath(old(paths), file, Place(window, view))
      ensures activeView == Some(view) && visibleViews == {view} && viewMru == [view] + old(viewMru)
    {
      hide Sound, OrderIsSound, Retain, WithPath;
      NotListed(viewMru, participants, activeView, visibleViews, view);
      var _ := SelectTabViews(window, view, {view});
      RegisterView(window, view, file);
      var _ := SetActiveViews(view, {view});
    }

    /** The settings view shows no file. */
    predicate SettingsShowNothing()
      reads this
    {
      settingsView.Some? && Holds(windows, settingsView.value.window, settingsView.value.view) ==>
        windows[settingsView.value.window].views[settingsView.value.view].None?
    }

    method ShowIn(window: WindowId, view: ViewId, file: Path)
      requires Valid() && Holds(windows, window, view) && windows[window].views[view].None? && file !in paths
      modifies this`windows, this`home, this`paths
      ensures Valid() && Registered() == old(Registered())
      ensures windows
              == old(windows)[window := old(windows)[window].(views := old(windows)[window].views[view := Some(file)])]
      ensures paths == old(paths)[file := Place(window, view)]
    {
      hide Sound, OrderIsSound;
      var record := windows[window].(views := windows[window].views[view := Some(file)]);
      IsHeld(windows, home, paths, settingsView, nextId, window, view);
      Shown(windows, home, paths, settingsView, nextId, window, record, view, Some(file));
      windows, home := windows[window := record], home[view := window];
      paths := paths[file := Place(window, view)];
    }

    /** Opens the settings once: beside the active view if there is one, else in a window of their own. */
    method OpenSettings(handle: Handle, opens: bool, beside: set<ViewId>) returns (r: Opened)
      requires Valid() && beside <= Registered()
      modifies this
      ensures Valid() && paths == old(paths)
      ensures r.Existing? <==> old(settingsView).Some?
      ensures r.Existing? ==> old(settingsView) == Some(r.place) && BroughtForward(r.place, beside)
      ensures r.NotOpened? ==> windows == old(windows) && settingsView == old(settingsView) && !opens
      ensures !r.Reused?
      ensures r.Fresh? ==>
                && settingsView == Some(r.place) && r.place.view !in old(Registered())
                && Registered() == old(Registered()) + {r.place.view} && activeView == Some(r.place.view)
                && EmptyPdfWindow(r.place.window) && windows[r.place.window].active == Some(r.place.view)
                && SettingsShowNothing()
                && (if old(activeView).Some? then Holds(old(windows), r.place.window, old(activeView).value)
                    else r.place.window !in old(windows))
    {
      hide Sound, OrderIsSound, Retain;
      if settingsView.Some? {
        SettingsAreHeld(windows, home, paths, settingsView, nextId);
        var _ := SelectTabViews(settingsView.value.window, settingsView.value.view, beside);
        return Existing(settingsView.value);
      }
      if activeView.Some? {
        var window := WindowOf(activeView.value);
        var view := Allocate();
        AddTab(window, view, None);
        PlaceSettings(Place(window, view));
        return Fresh(Place(window, view));
      }
      var window := Allocate();
      var view := Allocate();
      if !opens {
        return NotOpened;
      }
      InsertWindow(window, view, None, handle);
      PlaceSettings(Place(window, view));
      var _ := SetActiveViews(view, {view});
      r := Fresh(Place(window, view));
    }

    method PlaceSettings(place: Place)
      requires Valid() && Holds(windows, place.window, place.view)
      modifies this`settingsView
      ensures Valid() && settingsView == Some(place)
    {
      settingsView := Some(place);
    }

    /** The window that holds a registered view. */
    method WindowOf(view: ViewId) returns (w: WindowId)
      requires Valid() && activeView == Some(view)
      ensures Holds(windows, w, view)
    {
      IsHome(windows, home, paths, settingsView, nextId, view);
      w :| w in windows && view in windows[w].views;
    }

    /** Forgets a view, everywhere. */
    method RemoveView(window: WindowId, view: ViewId, following: Option<ViewId>)
      requires Valid()
      modifies this
      ensures old(view in Registered() ==> Holds(windows, window, view))
              && (following.Some? ==> old(Holds(windows, window, following.value)) && following.value != view) ==>
                Valid() && Registered() == old(Registered()) - {view}
      ensures windows
              == if window in old(windows)
                 then old(windows)[window := old(windows)[window].(views := old(windows)[window].views - {view},
                                                                   active := following)]
                 else old(windows)
      ensures nextId == old(nextId) && paths == PathsWithout(old(paths), view)
      ensures viewMru == Retain(old(viewMru), {view}) && participants.Keys == old(participants).Keys - {view}
      ensures settingsView == if old(settingsView).Some? && old(settingsView).value.view == view then None
                              else old(settingsView)
      ensures activeView == if old(activeView) == Some(view) then following else old(activeView)
      ensures visibleViews == old(visibleViews) - {view}
    {
      hide Sound, PathsWithout, Ranked, Listed, Retain;
      if (view in home ==> Holds(windows, window, view))
         && (following.Some? ==> Holds(windows, window, following.value) && following.value != view) {
        Taken(windows, home, paths, settingsView, nextId, window, view, following);
      }
      if window in windows {
        windows := windows[window := windows[window].(views := windows[window].views - {view}, active := following)];
      }
      home := home - {view};
      paths := PathsWithout(paths, view);
      if settingsView.Some? && settingsView.value.view == view {
        settingsView := None;
      }
      Forget({view}, if activeView == Some(view) then following else activeView);
    }

    /** Takes views out of the order of use and ranks the rest again. */
    method Forget(gone: set<ViewId>, active: Option<ViewId>)
      requires OrderIsSound(viewMru, participants, activeView, visibleViews)
      modifies this`viewMru, this`participants, this`activeView, this`visibleViews
      ensures (active.Some? ==> active.value in old(participants) && active.value !in gone) ==>
                OrderIsSound(viewMru, participants, activeView, visibleViews)
      ensures participants.Keys == old(participants).Keys - gone
      ensures viewMru == Retain(old(viewMru), gone) && activeView == active && visibleViews == old(visibleViews) - gone
    {
      hide Level, Retain, Listed, Ranked;
      RetainedAreListed(viewMru, participants, gone);
      participants := participants - gone;
      viewMru := Retain(viewMru, gone);
      visibleViews := visibleViews - gone;
      activeView := active;
      RefreshActivityLevels();
    }

    /** Moves a view, with the file or settings it shows, to another window. */
    method Transfer(source: WindowId, target: WindowId, view: ViewId)
      requires Valid()
      modifies this`windows, this`home, this`paths, this`settingsView
      ensures source == target ==> unchanged(this)
      ensures source != target ==>
                && windows == Moved(old(windows), source, target, view)
                && paths == PathsMoved(old(paths), view, target)
                && settingsView == (if old(settingsView).Some? && old(settingsView).value.view == view
                                    then Some(Place(target, view))
                                    else old(settingsView))
      ensures old(Holds(windows, source, view)) && target in old(windows) ==>
                && Valid() && Registered() == old(Registered()) && Holds(windows, target, view)
                && windows[target].views[view] == old(windows)[source].views[view]
                && (source != target ==> !Holds(windows, source, view))
    {
      hide Sound, OrderIsSound;
      if source == target {
        return;
      }
      if Holds(windows, source, view) && target in windows {
        Carried(windows, home, paths, settingsView, nextId, source, target, view);
        IsHeld(windows, home, paths, settingsView, nextId, source, view);
        home := home[view := target];
      }
      windows := Moved(windows, source, target, view);
      paths := PathsMoved(paths, view, target);
      if settingsView.Some? && settingsView.value.view == view {
        settingsView := Some(Place(target, view));
      }
    }

    /** Forgets the windows that are no longer open, and everything about their views. */
    method PruneClosedWindows(open: set<Handle>)
      requires Valid()
      modifies this
      ensures Valid() && windows == OpenOnly(old(windows), open)
      ensures Registered() == old(Registered()) - ClosedViews(old(windows), open)
      ensures viewMru == Retain(old(viewMru), ClosedViews(old(windows), open))
      ensures paths == PathsWithin(old(paths), windows) && nextId == old(nextId)
      ensures settingsView == if old(settingsView).Some?
                                 && !Holds(windows, old(settingsView).value.window, old(settingsView).value.view)
                              then None else old(settingsView)
      ensures activeView == if old(activeView).Some? && old(activeView).value in ClosedViews(old(windows), open) then None
                            else old(activeView)
    {
      hide Sound, Ranked, Listed, Retain;
      var removed := ClosedViews(windows, open);
      var kept := OpenOnly(windows, open);
      Narrowed(windows, home, paths, settingsView, nextId, open);
      windows, home := kept, home - removed;
      paths := PathsWithin(paths, kept);
      if settingsView.Some? && !Holds(kept, settingsView.value.window, settingsView.value.view) {
        settingsView := None;
      }
      Forget(removed, if activeView.Some? && activeView.value in removed then None else activeView);
    }

    /** A window that loses focus lets its active view idle. */
    method Idle(view: ViewId)
      requires Valid()
      modifies this`participants
      ensures Valid()
      ensures participants == if activeView == Some(view) then old(participants)[view := ForegroundIdle]
                              else old(participants)
    {
      if activeView == Some(view) && view in participants {
        participants := participants[view := ForegroundIdle];
      }
    }
  }

  /**
    The settings view comes to show a file: the settings are opened in a window of their own, and a file is opened from
    that window.
  */
  method SettingsShowAFile(file: Path, handle: Handle) returns (host: ApplicationHost)
    ensures host.Valid() && !host.SettingsShowNothing() && host.settingsView.Some?
    ensures file in host.paths && Some(host.paths[file]) == host.settingsView
  {
    hide Sound, OrderIsSound, Retain;
    host := new ApplicationHost();
    var settings := host.OpenSettings(handle, true, {});
    var shown := host.OpenPdfFrom(settings.place.window, file, {});
  }

  lemma NotListed(mru: seq<ViewId>, participants: map<ViewId, Activity>, active: Option<ViewId>, visible: set<ViewId>,
                  v: ViewId)
    requires OrderIsSound(mru, participants, active, visible) && v !in participants
    ensures Retain(mru, {v}) == mru && Retain([v] + mru, {v}) == mru && Retain(mru + [v], {v}) == mru
  {
    RetainNothing(mru, v);
    RetainFront(mru, v);
    RetainBack(mru, v);
  }

  lemma Fronted(s: seq<ViewId>, participants: map<ViewId, Activity>, v: ViewId)
    requires Listed(s, participants)
    ensures Distinct([v] + Retain(s, {v})) && (v in participants ==> Listed([v] + Retain(s, {v}), participants))
  {
    RetainKeepsDistinct(s, {v});
  }

  lemma Backed(s: seq<ViewId>, participants: map<ViewId, Activity>, v: ViewId, a: Activity)
    requires Listed(s, participants - {v})
    ensures Listed(s + [v], participants[v := a]) && Distinct(s + [v])
  {
    assert v !in s;
    forall u ensures u in s + [v] <==> u in participants[v := a] {
      assert u in s <==> u in participants - {v};
    }
  }

  lemma OrderLists(mru: seq<ViewId>, participants: map<ViewId, Activity>, active: Option<ViewId>, visible: set<ViewId>)
    requires OrderIsSound(mru, participants, active, visible)
    ensures Listed(mru, participants) && (forall v :: v in mru <==> v in participants)
    ensures (active.Some? ==> active.value in participants) && visible <= participants.Keys
  {
  }

  /** A view that is put in front and then left out again changes nothing. */
  lemma RetainFront(s: seq<ViewId>, v: ViewId)
    requires v !in s
    ensures Retain([v] + Retain(s, {v}), {v}) == s
  {
    RetainNothing(s, v);
    assert ([v] + s)[1..] == s;
  }

  lemma {:induction false} RetainBack(s: seq<ViewId>, v: ViewId)
    requires v !in s
    ensures Retain(s + [v], {v}) == s
  {
    if s != [] {
      assert (s + [v])[1..] == s[1..] + [v];
      RetainBack(s[1..], v);
    }
  }

  /** A view leaves its window, if it is in one. */
  lemma Taken(windows: Windows, home: Homes, paths: map<Path, Place>, settings: Option<Place>, next: nat,
              w: WindowId, v: ViewId, following: Option<ViewId>)
    requires Sound(windows, home, paths, settings, next) && (v in home ==> Holds(windows, w, v))
    requires following.Some? ==> Holds(windows, w, following.value) && following.value != v
    ensures var windows' := if w in windows
                            then windows[w := windows[w].(views := windows[w].views - {v}, active := following)] else windows;
            Sound(windows', home - {v}, PathsWithout(paths, v),
                  if settings.Some? && settings.value.view == v then None else settings, next)
    ensures following.Some? ==> following.value in home
  {
    hide Sound, PathsWithout;
    if following.Some? {
      IsHeld(windows, home, paths, settings, next, w, following.value);
    }
    if v in home {
      Dropped(windows, home, paths, settings, next, w,
              windows[w].(views := windows[w].views - {v}, active := following), v);
    } else {
      DroppedNothing(windows, home, paths, settings, next, v);
      if w in windows {
        Selected(windows, home, paths, settings, next, w, following);
      }
    }
  }

  /** What is nowhere leaves nothing behind. */
  lemma DroppedNothing(windows: Windows, home: Homes, paths: map<Path, Place>, settings: Option<Place>, next: nat, v: ViewId)
    requires Sound(windows, home, paths, settings, next) && v !in home
    ensures PathsWithout(paths, v) == paths && home - {v} == home && (settings.Some? ==> settings.value.view != v)
    ensures forall w :: w in windows ==> windows[w].views - {v} == windows[w].views
  {
    forall w | w in windows ensures windows[w].views - {v} == windows[w].views {
      assert !Holds(windows, w, v);
    }
  }

  lemma RetainedAreListed(s: seq<ViewId>, participants: map<ViewId, Activity>, gone: set<ViewId>)
    requires Listed(s, participants)
    ensures Listed(Retain(s, gone), participants - gone)
  {
    RetainKeepsDistinct(s, gone);
  }

  lemma LevelOfActive(v: ViewId, index: nat, visible: set<ViewId>)
    ensures Level(v, index, Some(v), visible) == ForegroundInteractive
  {
  }

  lemma {:induction false} RetainNothing(s: seq<ViewId>, v: ViewId)
    requires v !in s
    ensures Retain(s, {v}) == s
  {
    if s != [] {
      RetainNothing(s[1..], v);
      assert s == [s[0]] + s[1..];
    }
  }

  lemma IsHeld(windows: Windows, home: Homes, paths: map<Path, Place>, settings: Option<Place>, next: nat,
              w: WindowId, v: ViewId)
    requires Sound(windows, home, paths, settings, next) && Holds(windows, w, v)
    ensures v in home && home[v] == w && v < next && w < next
    ensures windows[w].active.Some? ==> windows[w].active.value in windows[w].views
  {
  }

  lemma SettingsAreHeld(windows: Windows, home: Homes, paths: map<Path, Place>, settings: Option<Place>, next: nat)
    requires Sound(windows, home, paths, settings, next)
    ensures settings.Some? ==>
              Holds(windows, settings.value.window, settings.value.view) && settings.value.view in home
              && home[settings.value.view] == settings.value.window && settings.value.view < next
  {
  }

  lemma PathIsHeld(windows: Windows, home: Homes, paths: map<Path, Place>, settings: Option<Place>, next: nat, file: Path)
    requires Sound(windows, home, paths, settings, next) && file in paths
    ensures Holds(windows, paths[file].window, paths[file].view)
  {
  }

  /** A view lives in one window, and a file is shown by one view. */
  lemma ShownOnce(windows: Windows, home: Homes, paths: map<Path, Place>, settings: Option<Place>, next: nat,
                  a: Place, b: Place)
    requires Sound(windows, home, paths, settings, next)
    requires Holds(windows, a.window, a.view) && Holds(windows, b.window, b.view)
    ensures a.view == b.view ==> a == b
    ensures windows[a.window].views[a.view] == windows[b.window].views[b.view] ==>
              a == b || windows[a.window].views[a.view].None?
  {
  }

  /** The handle of the window that holds a view. */
  ghost predicate ShownBehind(windows: Windows, v: ViewId, handle: Handle) {
    exists w :: Holds(windows, w, v) && windows[w].handle == handle
  }

  lemma IsShownBehind(windows: Windows, w: WindowId, v: ViewId)
    requires Holds(windows, w, v)
    ensures ShownBehind(windows, v, windows[w].handle)
  {
  }

  lemma IsKnown(windows: Windows, home: Homes, paths: map<Path, Place>, settings: Option<Place>, next: nat, w: WindowId)
    requires Sound(windows, home, paths, settings, next) && w in windows
    ensures w < next
  {
  }

  lemma NotHeld(windows: Windows, home: Homes, paths: map<Path, Place>, settings: Option<Place>, next: nat, v: ViewId)
    requires Sound(windows, home, paths, settings, next) && v !in home
    ensures forall w :: !Holds(windows, w, v)
  {
  }

  lemma IsHome(windows: Windows, home: Homes, paths: map<Path, Place>, settings: Option<Place>, next: nat, v: ViewId)
    requires Sound(windows, home, paths, settings, next) && v in home
    ensures Holds(windows, home[v], v)
  {
  }
}
