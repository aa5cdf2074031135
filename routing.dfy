/** Express routing as the route modules use it: an ordered table of
    (method, path pattern, guard chain, handler) entries, where the first
    entry whose method and pattern match the request takes it, and its
    guards run in order before the handler. */
module Routing {
  import opened Http

  datatype Method = Get | Post | Put | Delete

  /** One piece of a pattern: a literal, or a `:name` parameter. */
  datatype Segment = Lit(text: string) | Param(name: string)

  /** The `protect` and `admin` middleware. */
  datatype Guard = Protect | Admin

  datatype Route<H> = Route(verb: Method, pattern: seq<Segment>, guards: seq<Guard>, handler: H)

  /** A request path as its '/'-separated pieces: `/` is `[]`, `/5/pay`
      is `["5", "pay"]`. */
  type Path = seq<string>

  /** A literal matches only itself; a parameter matches any non-empty
      piece. */
  predicate SegmentMatches(s: Segment, piece: string) {
    match s
    case Lit(t) => piece == t
    case Param(_) => piece != ""
  }

  predicate Matches<H>(r: Route<H>, m: Method, path: Path) {
    && r.verb == m
    && |r.pattern| == |path|
    && forall i :: 0 <= i < |path| ==> SegmentMatches(r.pattern[i], path[i])
  }

  /** The entry that takes the request: the first that matches. */
  function Dispatch<H>(table: seq<Route<H>>, m: Method, path: Path): (r: Option<nat>)
    ensures r.Some? ==> r.value < |table| && Matches(table[r.value], m, path)
    ensures r.Some? ==> forall j :: 0 <= j < r.value ==> !Matches(table[j], m, path)
    ensures r.None? <==> forall j :: 0 <= j < |table| ==> !Matches(table[j], m, path)
  {
    DispatchFrom(table, m, path, 0)
  }

  function DispatchFrom<H>(table: seq<Route<H>>, m: Method, path: Path, from: nat): (r: Option<nat>)
    requires from <= |table|
    requires forall j :: 0 <= j < from ==> !Matches(table[j], m, path)
    ensures r.Some? ==> from <= r.value < |table| && Matches(table[r.value], m, path)
    ensures r.Some? ==> forall j :: 0 <= j < r.value ==> !Matches(table[j], m, path)
    ensures r.None? <==> forall j :: 0 <= j < |table| ==> !Matches(table[j], m, path)
    decreases |table| - from
  {
    if from == |table| then None
    else if Matches(table[from], m, path) then Some(from)
    else DispatchFrom(table, m, path, from + 1)
  }

  /** The first matching entry is the one that takes the request. */
  lemma DispatchAt<H>(table: seq<Route<H>>, m: Method, path: Path, i: nat)
    requires i < |table| && Matches(table[i], m, path)
    requires forall j :: 0 <= j < i ==> !Matches(table[j], m, path)
    ensures Dispatch(table, m, path) == Some(i)
  {
    var r := Dispatch(table, m, path);
    assert r.Some?;
    assert !(r.value < i);
    assert !(r.value > i);
  }

  /** Why a guard stopped the request. */
  datatype Denial = Unauthenticated | NotAdmin

  /** `protect` lets through any authenticated caller; `admin` only one
      whose account is an administrator's. */
  predicate Passes(g: Guard, caller: Option<Caller>) {
    match g
    case Protect => caller.Some?
    case Admin => caller.Some? && caller.value.isAdmin
  }

  function DenialOf(g: Guard): Denial {
    match g
    case Protect => Unauthenticated
    case Admin => NotAdmin
  }

  /** The guards run in order; the first that fails answers the request. */
  function FirstDenial(guards: seq<Guard>, caller: Option<Caller>): (r: Option<Denial>)
    ensures r.None? <==> forall i :: 0 <= i < |guards| ==> Passes(guards[i], caller)
    ensures r.Some? ==> exists i :: 0 <= i < |guards| && !Passes(guards[i], caller)
                                    && r.value == DenialOf(guards[i])
                                    && forall j :: 0 <= j < i ==> Passes(guards[j], caller)
  {
    if guards == [] then None
    else if !Passes(guards[0], caller) then Some(DenialOf(guards[0]))
    else
      var r := FirstDenial(guards[1..], caller);
      assert r.Some? ==> exists i :: 0 <= i < |guards| && !Passes(guards[i], caller)
                                     && r.value == DenialOf(guards[i])
                                     && forall j :: 0 <= j < i ==> Passes(guards[j], caller) by {
        if r.Some? {
          var i :| 0 <= i < |guards[1..]| && !Passes(guards[1..][i], caller)
                   && r.value == DenialOf(guards[1..][i])
                   && forall j :: 0 <= j < i ==> Passes(guards[1..][j], caller);
          assert forall j :: 0 <= j < i + 1 ==> Passes(guards[j], caller) by {
            forall j | 0 <= j < i + 1 ensures Passes(guards[j], caller) {
              if j > 0 {
                assert guards[j] == guards[1..][j - 1];
              }
            }
          }
          assert guards[i + 1] == guards[1..][i];
        }
      }
      r
  }

  /** The `protect, admin` chain. */
  lemma ProtectThenAdmin(caller: Option<Caller>)
    ensures FirstDenial([Protect, Admin], caller)
            == if caller.None? then Some(Unauthenticated)
               else if !caller.value.isAdmin then Some(NotAdmin)
               else None
  {
    assert [Protect, Admin][1..] == [Admin];
  }

  datatype Outcome<H> = NoRoute | Denied(denial: Denial) | Handled(handler: H)

  /** What a request with this method, path and caller ends in. */
  function Handle<H>(table: seq<Route<H>>, m: Method, path: Path, caller: Option<Caller>): (r: Outcome<H>)
    ensures r == NoRoute <==> Dispatch(table, m, path).None?
    ensures r.Handled? <==> Dispatch(table, m, path).Some?
                            && FirstDenial(table[Dispatch(table, m, path).value].guards, caller).None?
    ensures r.Handled? ==> r.handler == table[Dispatch(table, m, path).value].handler
    ensures r.Denied? ==> (Dispatch(table, m, path).Some?
                           && r.denial == FirstDenial(table[Dispatch(table, m, path).value].guards, caller).value)
  {
    match Dispatch(table, m, path)
    case None => NoRoute
    case Some(i) =>
      match FirstDenial(table[i].guards, caller)
      case Some(d) => Denied(d)
      case None => Handled(table[i].handler)
  }

  /** Every `admin` in a chain comes after a `protect`. */
  predicate AdminAfterProtect(guards: seq<Guard>) {
    forall k :: 0 <= k < |guards| && guards[k] == Admin ==>
      exists j :: 0 <= j < k && guards[j] == Protect
  }

  /** In such a chain an anonymous request is always refused as
      unauthenticated, never as a non-administrator. */
  lemma AnonymousIsUnauthenticated(guards: seq<Guard>)
    requires AdminAfterProtect(guards)
    requires FirstDenial(guards, None).Some?
    ensures FirstDenial(guards, None) == Some(Unauthenticated)
  {
    assert guards[0] == Protect;
  }
}
