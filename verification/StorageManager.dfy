/** The choice of the storage medium. Whether a path is there and accessible, and whether
    a medium could be synchronised, are inputs. */
module StorageManager {
  import opened Basics

  datatype MediaType = IntStor | ExtStor

  datatype StorageState = NotReady | Vanished | StorReady

  datatype MountState = NotMounted | MediaInserted | Mounted | MediaRemoved

  /** A medium: hasPath says that its path is known. mp is its priority within its type. */
  datatype Media = Media(
    mt: MediaType,
    mp: nat,
    permit: bool,
    inUse: bool,
    hasPath: bool,
    mountState: MountState,
    sync: bool)

  /** What the system says about a medium: an external mount was found or an internal
      path is configured, the path is accessible, and a synchronisation would succeed. */
  datatype Surroundings = Surroundings(pathFound: bool, accessible: bool, syncOk: bool)

  function KnowsPath(m: Media, e: Surroundings): bool {
    m.hasPath || e.pathFound || (m.mt == IntStor && m.mp == 0)
  }

  /** The state in which a medium is seen. External media count as ready only when the
      delay after booting is over. */
  function StateOf(m: Media, e: Surroundings, bootDelayOver: bool): StorageState {
    if !KnowsPath(m, e) then NotReady
    else if !e.accessible || m.mountState == MediaRemoved then (if m.inUse then Vanished else NotReady)
    else if m.mt == ExtStor && !bootDelayOver then NotReady
    else StorReady
  }

  function AfterLook(m: Media, e: Surroundings): Media {
    m.(hasPath := KnowsPath(m, e),
       mountState := if KnowsPath(m, e) && e.accessible && m.mountState != MediaRemoved then Mounted else m.mountState)
  }

  /** Looking at media changes neither what they are nor what is permitted. */
  predicate SameMedium(m: Media, after: Media) {
    m.mt == after.mt && m.mp == after.mp && m.permit == after.permit
  }

  /** A medium that may be chosen: ready, permitted, and in use already or synchronised. */
  predicate Qualifies(m: Media, e: Surroundings, bootDelayOver: bool) {
    StateOf(m, e, bootDelayOver).StorReady? && m.permit && (m.inUse || m.sync || e.syncOk)
  }

  /** The one with the highest priority among the first n that qualify. */
  function Pick(media: seq<Media>, es: seq<Surroundings>, bootDelayOver: bool, n: nat): Option<nat>
    requires n <= |media| == |es|
  {
    if n == 0 then None
    else if Qualifies(media[n - 1], es[n - 1], bootDelayOver) then Some(n - 1)
    else Pick(media, es, bootDelayOver, n - 1)
  }

  lemma {:induction false} PickIsFirst(media: seq<Media>, es: seq<Surroundings>, bootDelayOver: bool, n: nat)
    requires n <= |media| == |es|
    ensures var p := Pick(media, es, bootDelayOver, n);
      && (p.None? <==> forall i :: 0 <= i < n ==> !Qualifies(media[i], es[i], bootDelayOver))
      && (p.Some? ==> p.value < n && Qualifies(media[p.value], es[p.value], bootDelayOver))
      && (p.Some? ==> forall i :: p.value < i < n ==> !Qualifies(media[i], es[i], bootDelayOver))
  {
    if n > 0 {
      PickIsFirst(media, es, bootDelayOver, n - 1);
    }
  }

  /** A medium in use has a path, and an external one was seen ready after the delay. */
  predicate Sane(m: Media, extReady: bool) {
    m.inUse ==> m.hasPath && (m.mt == ExtStor ==> extReady)
  }

  /** A medium in use is only ever seen as ready or vanished. */
  lemma {:induction false} InUseIsReadyOrVanished(m: Media, e: Surroundings, extReady: bool, delayOver: bool)
    requires Sane(m, extReady) && m.inUse
    ensures StateOf(m, e, extReady || delayOver) != NotReady
    ensures StateOf(m, e, extReady || delayOver).StorReady? <==> e.accessible && m.mountState != MediaRemoved
  {
  }

  /** One that is not in use is never seen as vanished. It is ready exactly if a path to it is
      known and accessible, its device was not removed, and an external one is past the
      delay after booting. */
  lemma {:induction false} NotInUseIsReadyOrNot(m: Media, e: Surroundings, bootDelayOver: bool)
    requires !m.inUse
    ensures StateOf(m, e, bootDelayOver) != Vanished
    ensures StateOf(m, e, bootDelayOver).StorReady? <==>
      && (m.hasPath || e.pathFound || (m.mt.IntStor? && m.mp == 0))
      && e.accessible && m.mountState != MediaRemoved && (m.mt.ExtStor? ==> bootDelayOver)
  {
  }

  datatype Uevent = AddDevice | RemoveDevice(mine: bool)

  class StorageManager {
    // in ascending priority
    var media: seq<Media>
    var current: Option<nat>
    // the delay after booting was found to be over
    var extReady: bool

    ghost predicate Valid()
      reads this
    {
      && (current.Some? ==> current.value < |media|)
      && forall i :: 0 <= i < |media| ==>
          (media[i].inUse <==> current == Some(i)) && Sane(media[i], extReady)
    }

    /** A medium that is not permitted is not used. */
    ghost predicate Permitted()
      reads this
    {
      forall i :: 0 <= i < |media| && media[i].inUse ==> media[i].permit
    }

    constructor (ms: seq<Media>)
      requires forall i :: 0 <= i < |ms| ==> !ms[i].inUse
      ensures Valid() && Permitted() && media == ms && current == None && !extReady
    {
      media, current, extReady := ms, None, false;
    }

    method IsExternalReady(delayOver: bool) returns (ready: bool)
      modifies this`extReady
      ensures ready == (old(extReady) || delayOver) && extReady == ready
    {
      if extReady {
        return true;
      }
      if delayOver {
        extReady := true;
        return true;
      }
      return false;
    }

    method GetState(i: nat, e: Surroundings, delayOver: bool) returns (se: StorageState)
      requires Valid() && i < |media|
      modifies this`media, this`extReady
      ensures Valid() && se == StateOf(old(media)[i], e, old(extReady) || delayOver)
      ensures media == old(media)[i := AfterLook(old(media)[i], e)]
      ensures extReady ==> old(extReady) || delayOver
      ensures old(extReady) || (se.StorReady? && old(media)[i].mt == ExtStor) ==> extReady
    {
      var m;
      se, m := Look(media[i], e, delayOver);
      media := media[i := m];
    }

    method Look(m: Media, e: Surroundings, delayOver: bool) returns (se: StorageState, after: Media)
      modifies this`extReady
      ensures se == StateOf(m, e, old(extReady) || delayOver) && after == AfterLook(m, e)
      ensures extReady ==> old(extReady) || delayOver
      ensures old(extReady) || (se.StorReady? && m.mt == ExtStor) ==> extReady
    {
      se, after := NotReady, m;
      if !m.hasPath {
        var path := e.pathFound;
        if m.mt == IntStor && m.mp == 0 {
          path := true;
        }
        after := after.(hasPath := path);
      }
      if after.hasPath {
        if !e.accessible {
          if m.inUse {
            se := Vanished;
          }
        } else {
          var ready := true;
          if m.mt == ExtStor {
            ready := IsExternalReady(delayOver);
          }
          se := if ready then StorReady else NotReady;
          if m.mountState == MediaRemoved {
            se := if m.inUse then Vanished else NotReady;
          } else {
            after := after.(mountState := Mounted);
          }
        }
      }
    }

    /** Decides about one medium in the given state: true if it is to be used. */
    method MediaDeterminer(i: nat, se: StorageState, syncOk: bool) returns (ret: bool)
      requires Valid() && i < |media|
      requires se.StorReady? ==> media[i].hasPath && (media[i].mt == ExtStor ==> extReady)
      requires if media[i].inUse then !se.NotReady? else !se.Vanished?
      modifies this`media, this`current
      ensures Valid() && |media| == |old(media)|
      ensures var m := old(media)[i];
        ret <==> se.StorReady? && m.permit && (m.inUse || m.sync || syncOk)
      ensures current == if ret then Some(i) else if old(current) == Some(i) then None else old(current)
      ensures var m := old(media)[i];
        media[i] == if ret then m.(inUse := true, sync := m.sync || old(current) != Some(i))
                    else if se.StorReady? then m.(inUse := false)
                    else if se.Vanished? || m.sync then m.(inUse := false, sync := false, hasPath := false)
                    else m
      ensures forall k :: 0 <= k < |media| && k != i ==>
        media[k] == if ret then old(media)[k].(inUse := false) else old(media)[k]
      ensures !ret && !se.StorReady? ==> !media[i].sync
      ensures old(Permitted()) ==> Permitted()
    {
      ret := false;
      var m := media[i];
      match se {
        case StorReady =>
          if !m.permit {
            if current == Some(i) {
              current := None;
              media := media[i := m.(inUse := false)];
            }
          } else if current == Some(i) {
            ret := true;
          } else if m.sync || syncOk {
            if current.Some? {
              media := media[current.value := media[current.value].(inUse := false)];
            }
            media := media[i := m.(inUse := true, sync := true)];
            current := Some(i);
            ret := true;
          }
        case Vanished =>
          media := media[i := m.(inUse := false, sync := false, hasPath := false)];
          current := None;
        case NotReady =>
          if m.sync {
            media := media[i := m.(sync := false, hasPath := false)];
          }
      }
    }

    /** Looks at one medium and decides about it. */
    method CheckOne(i: nat, e: Surroundings, delayOver: bool) returns (found: bool)
      requires Valid() && i < |media|
      modifies this
      ensures Valid() && |media| == |old(media)| && (extReady || delayOver <==> old(extReady) || delayOver)
      ensures found <==> Qualifies(old(media)[i], e, old(extReady) || delayOver)
      ensures current == if found then Some(i) else if old(current) == Some(i) then None else old(current)
      ensures !found ==> forall k :: 0 <= k < |media| && k != i ==> media[k] == old(media)[k]
      ensures forall k :: 0 <= k < |media| ==> SameMedium(old(media)[k], media[k])
      ensures old(Permitted()) ==> Permitted()
    {
      InUseOrNot(media[i], e, extReady, delayOver);
      var se := GetState(i, e, delayOver);
      found := MediaDeterminer(i, se, e.syncOk);
    }

    /** Looks at the media from the highest priority on. Afterwards the current storage is
        the first that qualifies, or none. */
    method CheckMediaChange(es: seq<Surroundings>, delayOver: bool) returns (changed: bool)
      requires Valid() && |es| == |media|
      modifies this
      ensures Valid() && |media| == |old(media)| && (old(Permitted()) ==> Permitted())
      ensures current == Pick(old(media), es, old(extReady) || delayOver, |old(media)|)
      ensures changed <==> current != old(current)
      ensures forall k :: 0 <= k < |media| ==> SameMedium(old(media)[k], media[k])
      ensures current.Some? ==>
        var m := old(media)[current.value];
        && m.permit && es[current.value].accessible && m.mountState != MediaRemoved
        && (m.mt.ExtStor? ==> old(extReady) || delayOver)
    {
      var before := current;
      ghost var all, over := media, extReady || delayOver;
      var n: nat := |media|;
      var found := false;
      while n > 0 && !found
        invariant Valid() && |media| == |all| == |es| && n <= |all| && (old(Permitted()) ==> Permitted())
        invariant extReady || delayOver <==> over
        invariant forall k :: 0 <= k < |media| ==> SameMedium(all[k], media[k])
        invariant !found ==> forall k :: 0 <= k < n ==> media[k] == all[k]
        invariant !found ==> current == (if before.Some? && before.value < n then before else None)
        invariant !found ==> Pick(all, es, over, n) == Pick(all, es, over, |all|)
        invariant found ==> current == Pick(all, es, over, |all|)
        decreases n, !found
      {
        n := n - 1;
        found := CheckOne(n, es[n], delayOver);
      }
      PickIsFirst(all, es, over, |all|);
      changed := current != before;
    }

    /** Permits or forbids all media of a type. A forbidden one is not used any more. */
    method EnableMedia(mt: MediaType, en: bool)
      requires Valid() && Permitted()
      modifies this`media, this`current
      ensures Valid() && Permitted() && |media| == |old(media)|
      ensures forall i :: 0 <= i < |media| && media[i].mt == mt ==> media[i].permit == en
      ensures forall i :: 0 <= i < |media| && old(media)[i].mt != mt ==> media[i] == old(media)[i]
      ensures current ==
        if !en && old(current).Some? && old(media)[old(current).value].mt == mt then None else old(current)
    {
      for i := 0 to |media|
        invariant Valid() && Permitted() && |media| == |old(media)|
        invariant forall k :: 0 <= k < |media| ==> media[k].mt == old(media)[k].mt
        invariant forall k :: 0 <= k < i && media[k].mt == mt ==> media[k].permit == en
        invariant forall k :: 0 <= k < |media| && (k >= i || media[k].mt != mt) ==> media[k] == old(media)[k]
        invariant current ==
          if !en && old(current).Some? && old(current).value < i && media[old(current).value].mt == mt then None
          else old(current)
      {
        if media[i].mt == mt && en != media[i].permit {
          media := media[i := media[i].(permit := en)];
          if !en && current == Some(i) {
            media := media[i := media[i].(inUse := false)];
            current := None;
          }
        }
      }
    }

    method OnUevent(i: nat, event: Uevent)
      requires Valid() && i < |media|
      modifies this`media
      ensures Valid() && |media| == |old(media)|
      ensures forall k :: 0 <= k < |media| && k != i ==> media[k] == old(media)[k]
      ensures event == RemoveDevice(true) ==> media[i].mountState == MediaRemoved
      ensures event == RemoveDevice(false) || (event == AddDevice && old(media)[i].mountState == Mounted) ==>
        media == old(media)
      ensures event == AddDevice ==> media[i].mountState != MediaRemoved
    {
      match event {
        case AddDevice =>
          if media[i].mountState != Mounted {
            media := media[i := media[i].(mountState := MediaInserted)];
          }
        case RemoveDevice(mine) =>
          if mine {
            media := media[i := media[i].(mountState := MediaRemoved)];
          }
      }
    }
  }

  lemma {:induction false} InUseOrNot(m: Media, e: Surroundings, extReady: bool, delayOver: bool)
    requires Sane(m, extReady)
    ensures if m.inUse then StateOf(m, e, extReady || delayOver) != NotReady
            else StateOf(m, e, extReady || delayOver) != Vanished
  {
    if m.inUse {
      InUseIsReadyOrVanished(m, e, extReady, delayOver);
    }
  }
}
