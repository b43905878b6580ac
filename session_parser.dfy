/**
 * The session normaliser: `parseSessions` of utils/sessionParser.js.
 *
 * An untrusted payload (one session object or a list of them) becomes a list
 * of canonical sessions. Car and driver name come from the first player, the
 * laps from the first sub-session; a session lacking a truthy track, car or
 * driver name is skipped; each lap's `valid` falls back to 1 and its `sectors`
 * to an empty list when the field is undefined or null.
 *
 * Reading a property of `null` and calling `map` on something that is not an
 * array throw a TypeError in JavaScript; those throws are the `ParseError`s.
 */
module SessionParser {
  import opened Wrappers
  import opened JsValue
  import opened Collect

  /** A canonical lap; `time` is copied as read, so it may be undefined. */
  datatype Lap = Lap(time: Option<Value>, valid: Value, sectors: Value)

  /** A canonical session. */
  datatype Session = Session(track: Value, car: Value, username: Value, laps: seq<Lap>)

  /** The TypeErrors `parseSessions` can throw. */
  datatype ParseError =
    | NullSession   // `session.players` on a null element of the payload
    | LapsNotArray  // `laps.map` on a truthy value that is not an array
    | NullLap       // `lap.time` on a null element of the lap list

  /** `Array.isArray(rawInput) ? rawInput : [rawInput]` */
  function AsList(raw: Value): seq<Value>
  {
    if raw.Arr? then raw.elems else [raw]
  }

  // The reads `parseSessions` makes of one payload element.

  function FirstPlayer(v: Value): Option<Value>
  {
    OptFirst(Prop(v, "players"))
  }

  function TrackOf(v: Value): Value
  {
    Or(Prop(v, "track"), Null)
  }

  function CarOf(v: Value): Value
  {
    Or(OptProp(FirstPlayer(v), "car"), Null)
  }

  function UsernameOf(v: Value): Value
  {
    Or(OptProp(FirstPlayer(v), "name"), Null)
  }

  function LapsOf(v: Value): Value
  {
    Or(OptProp(OptFirst(Prop(v, "sessions")), "laps"), Arr([]))
  }

  /** Track, car and driver name are all truthy: the session is not skipped. */
  predicate Complete(v: Value)
  {
    Truthy(Some(TrackOf(v))) && Truthy(Some(CarOf(v))) && Truthy(Some(UsernameOf(v)))
  }

  /** The element survives into the result (unless a later read throws). */
  predicate Kept(v: Value)
  {
    v != Null && Complete(v)
  }

  /** Processing the element throws. */
  predicate Throws(v: Value)
  {
    v == Null || (Complete(v) && (!LapsOf(v).Arr? || Null in LapsOf(v).elems))
  }

  /** The per-lap callback of `laps.map`. */
  function NormalizeLap(lap: Value): (r: Result<Lap, ParseError>)
    ensures r.Failure? <==> lap == Null
    ensures r.Failure? ==> r.error == NullLap
    ensures r.Success? ==> r.value.time == Prop(lap, "time")
    ensures r.Success? && Nullish(Prop(lap, "valid")) ==> r.value.valid == Num(1.0)
    ensures r.Success? && !Nullish(Prop(lap, "valid")) ==> Prop(lap, "valid") == Some(r.value.valid)
    ensures r.Success? && Nullish(Prop(lap, "sectors")) ==> r.value.sectors == Arr([])
    ensures r.Success? && !Nullish(Prop(lap, "sectors")) ==> Prop(lap, "sectors") == Some(r.value.sectors)
  {
    if lap == Null then Failure(NullLap)
    else Success(Lap(Prop(lap, "time"), Coalesce(Prop(lap, "valid"), Num(1.0)),
                     Coalesce(Prop(lap, "sectors"), Arr([]))))
  }

  /** `laps.map(...)`: one canonical lap per input lap, in order, or the throw. */
  function NormalizeLaps(laps: seq<Value>): (r: Result<seq<Lap>, ParseError>)
    ensures r.Failure? <==> Null in laps
    ensures r.Failure? ==> r.error == NullLap
    ensures r.Success? ==> |r.value| == |laps|
    ensures r.Success? ==> forall k :: 0 <= k < |laps| ==> NormalizeLap(laps[k]) == Success(r.value[k])
  {
    if laps == [] then Success([])
    else
      match NormalizeLap(laps[0])
      case Failure(e) => Failure(e)
      case Success(lap) =>
        match NormalizeLaps(laps[1..])
        case Failure(e) => Failure(e)
        case Success(rest) => Success([lap] + rest)
  }

  /** One iteration of the loop: throw, skip (None) or one canonical session. */
  function NormalizeSession(v: Value): Result<Option<Session>, ParseError>
  {
    if v == Null then Failure(NullSession)
    else if !Complete(v) then Success(None)
    else
      match LapsOf(v)
      case Arr(elems) =>
        (match NormalizeLaps(elems)
         case Failure(e) => Failure(e)
         case Success(laps) => Success(Some(Session(TrackOf(v), CarOf(v), UsernameOf(v), laps))))
      case _ => Failure(LapsNotArray)
  }

  /**
   * What one iteration does: it throws exactly on `Throws`, skips exactly the
   * incomplete elements, and otherwise emits the element's track, first
   * player's car and name, and one canonical lap per lap of the first
   * sub-session, in order.
   */
  lemma NormalizeSessionSpec(v: Value)
    ensures NormalizeSession(v).Failure? <==> Throws(v)
    ensures NormalizeSession(v) == Success(None) <==> v != Null && !Complete(v)
    ensures NormalizeSession(v).Success? && NormalizeSession(v).value.Some? ==>
      var x := NormalizeSession(v).value.value;
      && Kept(v)
      && x.track == TrackOf(v) && x.car == CarOf(v) && x.username == UsernameOf(v)
      && LapsOf(v).Arr? && |x.laps| == |LapsOf(v).elems|
      && forall k :: 0 <= k < |x.laps| ==> NormalizeLap(LapsOf(v).elems[k]) == Success(x.laps[k])
  {
  }

  /** The whole loop over the payload elements, in order, the first throw ending it. */
  function NormalizeList(s: seq<Value>): Result<seq<Session>, ParseError>
  {
    FilterMap(NormalizeSession, s)
  }

  /** `parseSessions(rawInput)` */
  method ParseSessions(raw: Value) returns (r: Result<seq<Session>, ParseError>)
    ensures r == NormalizeList(AsList(raw))
  {
    var sessions := if raw.Arr? then raw.elems else [raw];
    var parsed: seq<Session> := [];
    var i := 0;
    assert sessions[i..] == sessions;
    PrependNothing(NormalizeList(sessions));
    while i < |sessions|
      invariant 0 <= i <= |sessions|
      invariant NormalizeList(sessions) == Prepend(parsed, NormalizeList(sessions[i..]))
    {
      var session := sessions[i];
      ghost var rest := NormalizeList(sessions[i + 1..]);
      assert sessions[i..][0] == session && sessions[i..][1..] == sessions[i + 1..];
      if session == Null {
        return Failure(NullSession);
      }
      var player := FirstPlayer(session);
      var track := Or(Prop(session, "track"), Null);
      var car := Or(OptProp(player, "car"), Null);
      var username := Or(OptProp(player, "name"), Null);
      var laps := Or(OptProp(OptFirst(Prop(session, "sessions")), "laps"), Arr([]));
      assert track == TrackOf(session) && car == CarOf(session) && username == UsernameOf(session);
      assert laps == LapsOf(session);
      if !Truthy(Some(track)) || !Truthy(Some(car)) || !Truthy(Some(username)) {
        assert NormalizeSession(session) == Success(None);
        PrependNothing(rest);
        i := i + 1;
        continue;
      }
      if !laps.Arr? {
        return Failure(LapsNotArray);
      }
      var mapped := NormalizeLaps(laps.elems);
      if mapped.Failure? {
        return Failure(mapped.error);
      }
      assert NormalizeSession(session) == Success(Some(Session(track, car, username, mapped.value)));
      PrependAssoc(parsed, [Session(track, car, username, mapped.value)], rest);
      parsed := parsed + [Session(track, car, username, mapped.value)];
      i := i + 1;
    }
    assert sessions[i..] == [];
    assert parsed + [] == parsed;
    r := Success(parsed);
  }

  // ---------------------------------------------------------------------------
  // Properties of the normaliser

  /** A skipped session leaves no trace: its siblings are processed as if it were absent. */
  lemma SkippedSessionIsTransparent(a: seq<Value>, v: Value, b: seq<Value>)
    requires v != Null && !Complete(v)
    ensures NormalizeList(a + [v] + b) == NormalizeList(a + b)
  {
    FilterMapAppend(NormalizeSession, a + [v], b);
    FilterMapAppend(NormalizeSession, a, [v]);
    FilterMapAppend(NormalizeSession, a, b);
    assert NormalizeList([v]) == Success([]) by {
      assert [v][0] == v && [v][1..] == [];
      assert NormalizeSession(v) == Success(None);
      assert Emitted<Session>(None) + [] == [];
    }
    if NormalizeList(a).Success? {
      assert NormalizeList(a).value + [] == NormalizeList(a).value;
    }
  }

  /** The indices of the payload elements that survive into the result. */
  function Survivors(s: seq<Value>): (r: seq<nat>)
    ensures forall k :: 0 <= k < |r| ==> r[k] < |s|
  {
    EmittersFrom(NormalizeSession, s, 0)
  }

  /**
   * Order and provenance: when the call does not throw, the k-th output
   * session is the canonical form of the k-th kept payload element, the
   * kept elements are listed in increasing order, and none is missed.
   */
  lemma NormalizedOrigins(s: seq<Value>)
    requires NormalizeList(s).Success?
    ensures |NormalizeList(s).value| == |Survivors(s)| <= |s|
    ensures forall k, l :: 0 <= k < l < |Survivors(s)| ==> Survivors(s)[k] < Survivors(s)[l]
    ensures forall k :: 0 <= k < |Survivors(s)| ==>
      Kept(s[Survivors(s)[k]]) && NormalizeSession(s[Survivors(s)[k]]) == Success(Some(NormalizeList(s).value[k]))
    ensures forall i :: 0 <= i < |s| && Kept(s[i]) ==> i in Survivors(s)
  {
    FilterMapOrigins(NormalizeSession, s, 0);
    FilterMapLength(NormalizeSession, s);
    EmittersIncreasing(NormalizeSession, s, 0);
    EmittersComplete(NormalizeSession, s, 0);
    FilterMapFailsIff(NormalizeSession, s);
    forall k | 0 <= k < |Survivors(s)| ensures Kept(s[Survivors(s)[k]]) {
      NormalizeSessionSpec(s[Survivors(s)[k]]);
    }
    forall i | 0 <= i < |s| && Kept(s[i]) ensures i in Survivors(s) {
      NormalizeSessionSpec(s[i]);
    }
  }

  /** Every session in the result has a truthy track, car and driver name. */
  lemma NormalizedSessionsComplete(s: seq<Value>)
    requires NormalizeList(s).Success?
    ensures forall k :: 0 <= k < |NormalizeList(s).value| ==>
      var x := NormalizeList(s).value[k];
      Truthy(Some(x.track)) && Truthy(Some(x.car)) && Truthy(Some(x.username))
  {
    NormalizedOrigins(s);
    forall k | 0 <= k < |NormalizeList(s).value|
      ensures var x := NormalizeList(s).value[k];
        Truthy(Some(x.track)) && Truthy(Some(x.car)) && Truthy(Some(x.username))
    {
      NormalizeSessionSpec(s[Survivors(s)[k]]);
    }
  }

  /** The call throws exactly when processing some element of the payload throws. */
  lemma NormalizeListFailsIff(s: seq<Value>)
    ensures NormalizeList(s).Failure? <==> exists i :: 0 <= i < |s| && Throws(s[i])
  {
    FilterMapFailsIff(NormalizeSession, s);
    forall i | 0 <= i < |s| ensures NormalizeSession(s[i]).Failure? <==> Throws(s[i]) {
      NormalizeSessionSpec(s[i]);
    }
  }

  /** A payload that is not an array is one session: the result has at most one element. */
  lemma SingleObjectPayload(raw: Value)
    requires !raw.Arr?
    requires NormalizeList(AsList(raw)).Success?
    ensures |NormalizeList(AsList(raw)).value| == 1 <==> Kept(raw)
    ensures |NormalizeList(AsList(raw)).value| <= 1
  {
    var s := AsList(raw);
    assert s == [raw] && s[0] == raw && s[1..] == [];
    NormalizeSessionSpec(raw);
    var none: Result<seq<Session>, ParseError> := Success([]);
    PrependNothing(none);
    assert FilterMap(NormalizeSession, s[1..]) == none;
    assert NormalizeSession(raw).Success?;
    assert NormalizeList(s) == Prepend(Emitted(NormalizeSession(raw).value), none);
  }

  /**
   * Only the first player and the first sub-session are read: two elements
   * that agree on the track, on `players[0]` and on `sessions[0]` normalise alike.
   */
  lemma OnlyFirstPlayerAndSubSession(v: Value, w: Value)
    requires v != Null && w != Null
    requires Prop(v, "track") == Prop(w, "track")
    requires FirstPlayer(v) == FirstPlayer(w)
    requires OptFirst(Prop(v, "sessions")) == OptFirst(Prop(w, "sessions"))
    ensures NormalizeSession(v) == NormalizeSession(w)
  {
  }
}
