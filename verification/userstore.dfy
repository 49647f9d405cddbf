/** The user store (store/useUserStore.ts): the chosen location, the child's
    profile and the onboarding flag, changed by three actions, and the
    in-memory key/value storage used where the browser's storage is missing. */
module UserStore {
  import opened JsValue

  // ---------------------------------------------------------------- state

  /** Coordinates are kept as exact reals; the station is the one the
      readings are fetched for. */
  datatype Location = Location(lat: real, lng: real, stationName: string)

  datatype Profile = Profile(nickname: Option<string>, ageGroup: string, condition: string)

  datatype State = State(location: Location, profile: Option<Profile>, isOnboarded: bool)

  /** Gangnam-gu office, approximately. */
  const DefaultLocation: Location := Location(37.5172, 127.0473, "강남구")

  const Initial: State := State(DefaultLocation, None, false)

  datatype Action =
    | SetLocation(loc: Location)
    | SetProfile(p: Profile)
    | ResetProfile

  /** One action, applied as the store's `set` merges it: every field the
      action does not name stays as it was. */
  function Apply(s: State, a: Action): (t: State)
    ensures a.SetLocation? ==> t.location == a.loc && t.profile == s.profile && t.isOnboarded == s.isOnboarded
    ensures a.SetProfile? ==> t.profile == Some(a.p) && t.isOnboarded && t.location == s.location
    ensures a.ResetProfile? ==> t.profile == None && !t.isOnboarded && t.location == s.location
  {
    match a
    case SetLocation(loc) => s.(location := loc)
    case SetProfile(p) => s.(profile := Some(p), isOnboarded := true)
    case ResetProfile => s.(profile := None, isOnboarded := false)
  }

  /** The actions in order, the first applied first. */
  function Run(s: State, acts: seq<Action>): State
    decreases |acts|
  {
    if acts == [] then s else Run(Apply(s, acts[0]), acts[1..])
  }

  lemma {:induction false} RunAppend(s: State, acts: seq<Action>, a: Action)
    ensures Run(s, acts + [a]) == Apply(Run(s, acts), a)
    decreases |acts|
  {
    if acts != [] {
      assert (acts + [a])[1..] == acts[1..] + [a];
      RunAppend(Apply(s, acts[0]), acts[1..], a);
    }
  }

  // ------------------------------------------------------------ invariant

  /** The flag says whether a profile is stored. */
  predicate Consistent(s: State)
  {
    s.isOnboarded <==> s.profile.Some?
  }

  lemma ApplyConsistent(s: State, a: Action)
    requires Consistent(s)
    ensures Consistent(Apply(s, a))
  {
  }

  lemma {:induction false} RunConsistent(s: State, acts: seq<Action>)
    requires Consistent(s)
    ensures Consistent(Run(s, acts))
    decreases |acts|
  {
    if acts != [] {
      ApplyConsistent(s, acts[0]);
      RunConsistent(Apply(s, acts[0]), acts[1..]);
    }
  }

  /** From the initial state, whatever the actions, the user counts as
      onboarded exactly when a profile is stored. */
  lemma ReachableConsistent(acts: seq<Action>)
    ensures Run(Initial, acts).isOnboarded <==> Run(Initial, acts).profile.Some?
  {
    RunConsistent(Initial, acts);
  }

  // ------------------------------------------------------------- tracking

  /** The location of the last `setLocation`, if there was one. */
  function LastLocation(acts: seq<Action>): (l: Option<Location>)
    ensures l.Some? <==> exists i :: 0 <= i < |acts| && acts[i].SetLocation?
    decreases |acts|
  {
    if acts == [] then None
    else if acts[|acts| - 1].SetLocation? then Some(acts[|acts| - 1].loc)
    else
      var l := LastLocation(acts[..|acts| - 1]);
      assert forall i :: 0 <= i < |acts| - 1 ==> acts[..|acts| - 1][i] == acts[i];
      l
  }

  /** The profile left by the last profile action: `Some(Some(p))` after a
      `setProfile(p)`, `Some(None)` after a `resetProfile`, `None` if neither
      happened. */
  function LastProfile(acts: seq<Action>): (p: Option<Option<Profile>>)
    ensures p.Some? <==> exists i :: 0 <= i < |acts| && !acts[i].SetLocation?
    decreases |acts|
  {
    if acts == [] then None
    else if acts[|acts| - 1].SetProfile? then Some(Some(acts[|acts| - 1].p))
    else if acts[|acts| - 1].ResetProfile? then Some(None)
    else
      var p := LastProfile(acts[..|acts| - 1]);
      assert forall i :: 0 <= i < |acts| - 1 ==> acts[..|acts| - 1][i] == acts[i];
      p
  }

  /** The location is the last one set, or the starting one. */
  lemma {:induction false} RunLocation(s: State, acts: seq<Action>)
    ensures Run(s, acts).location
      == (if LastLocation(acts).Some? then LastLocation(acts).value else s.location)
    decreases |acts|
  {
    if acts != [] {
      assert acts == acts[..|acts| - 1] + [acts[|acts| - 1]];
      RunAppend(s, acts[..|acts| - 1], acts[|acts| - 1]);
      RunLocation(s, acts[..|acts| - 1]);
    }
  }

  /** The profile is the one the last profile action left, or the starting
      one; the location actions do not touch it. */
  lemma {:induction false} RunProfile(s: State, acts: seq<Action>)
    ensures Run(s, acts).profile
      == (if LastProfile(acts).Some? then LastProfile(acts).value else s.profile)
    decreases |acts|
  {
    if acts != [] {
      assert acts == acts[..|acts| - 1] + [acts[|acts| - 1]];
      RunAppend(s, acts[..|acts| - 1], acts[|acts| - 1]);
      RunProfile(s, acts[..|acts| - 1]);
    }
  }

  /** Repeating an action changes nothing more. */
  lemma ApplyIdempotent(s: State, a: Action)
    ensures Apply(Apply(s, a), a) == Apply(s, a)
  {
  }

  /** A location change and a profile change may happen in either order. */
  lemma LocationCommutesWithProfile(s: State, loc: Location, a: Action)
    requires !a.SetLocation?
    ensures Apply(Apply(s, SetLocation(loc)), a) == Apply(Apply(s, a), SetLocation(loc))
  {
  }

  // ------------------------------------------------------- memory storage

  /** The storage's record of names to strings. */
  type Storage = map<string, string>

  /** `getItem`: the stored string, `null` for a name never set or removed. */
  function GetItem(st: Storage, name: string): (r: Option<string>)
    ensures r.Some? <==> name in st
    ensures r.Some? ==> r.value == st[name]
  {
    if name in st then Some(st[name]) else None
  }

  /** `setItem`: the name now reads back the value, and every other name
      reads as before. */
  function SetItem(st: Storage, name: string, value: string): (t: Storage)
    ensures GetItem(t, name) == Some(value)
    ensures forall k :: k != name ==> GetItem(t, k) == GetItem(st, k)
    ensures t.Keys == st.Keys + {name}
  {
    st[name := value]
  }

  /** `removeItem`: the name now reads as `null`, and every other name reads
      as before; removing a missing name changes nothing. */
  function RemoveItem(st: Storage, name: string): (t: Storage)
    ensures GetItem(t, name) == None
    ensures forall k :: k != name ==> GetItem(t, k) == GetItem(st, k)
    ensures t.Keys == st.Keys - {name}
    ensures name !in st ==> t == st
  {
    map k | k in st && k != name :: st[k]
  }

  /** Removing after setting forgets the set: the storage is as if the name
      had been removed alone. */
  lemma SetThenRemove(st: Storage, name: string, value: string)
    ensures RemoveItem(SetItem(st, name, value), name) == RemoveItem(st, name)
  {
  }

  /** Two storages that read alike for every name are the same storage, so
      the read laws above fix the results of `setItem` and `removeItem`. */
  lemma ReadsDetermineStorage(a: Storage, b: Storage)
    requires forall k :: GetItem(a, k) == GetItem(b, k)
    ensures a == b
  {
    assert forall k :: k in a <==> GetItem(a, k).Some?;
  }
}
