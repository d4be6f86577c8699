/** `PregancyHandler`: avatar detection, the per-address dispatch of inbound
    messages, saving the working record, the two record buttons of the
    window, and the periodic progress broadcast. The process-wide cells
    (`SystemActive`, `ChildData`, the cache, the save file) are explicit
    values; clocks, the registry and what the network returns are inputs. */
module PregnancyHandler {
  import opened Wrappers
  import opened Decimal
  import opened Gestation
  import opened ChildRecord
  import opened Progress
  import opened OscServer
  import Json
  import OscQueryCache

  /** The save file's contents: avatar id to record. */
  type Store = map<string, ChildInfo>

  /** `SystemActive` (always set, so a plain flag) and `ChildData`. */
  datatype HandlerState = HandlerState(active: bool, record: Cell)

  /** Before any avatar check: inactive, no record. */
  const InitialState: HandlerState := HandlerState(false, None)

  const ChildcountAddress: string := "/avatar/parameters/Childcount"
  const GestationTimeAddress: string := "/avatar/parameters/GestationTime"
  const GestationAddress: string := "/avatar/parameters/Gestation"
  const IsPregnantAddress: string := "/avatar/parameters/IsPregnant"
  const PregnancySaveAddress: string := "/avatar/parameters/PregnancySave"
  const AvatarChangeAddress: string := "/avatar/change"

  function GestationTimeMessage(c: ChildInfo): OscMessage {
    OscMessage(GestationTimeAddress, [Float(c.gestationTime)])
  }

  function GestationMessage(c: ChildInfo): OscMessage {
    OscMessage(GestationAddress, [Int(ToU8(c.gestation))])
  }

  const IsPregnantMessage: OscMessage := OscMessage(IsPregnantAddress, [Bool(true)])

  /** The messages that bring the peer in line with a freshly loaded record. */
  function ResyncMessages(c: ChildInfo): (ms: seq<OscMessage>)
    ensures |ms| == if c.childCount > 0 then 4 else 2
    ensures ms[0] == OscMessage(GestationTimeAddress, [Float(c.gestationTime)])
    ensures ms[1] == OscMessage(GestationAddress, [Int(ToU8(c.gestation))])
    ensures c.childCount > 0 ==>
              ms[2] == OscMessage(ChildCountAddress, [Int(c.childCount)]) && ms[3] == OscMessage(IsPregnantAddress, [Bool(true)])
  {
    [GestationTimeMessage(c), GestationMessage(c)]
      + if c.childCount > 0 then [ChildCountMessage(c.childCount), IsPregnantMessage] else []
  }

  /** Avatar detection once the metadata has been read. */
  datatype Transition = Transition(state: HandlerState, store: Store, sent: seq<OscMessage>)

  /** The decision of `check_avatar_oscquery`: without the parameter subtree
      the handler goes inactive and drops its record, saying nothing; with it,
      the avatar's stored record (or a new default one, which is added to the
      store) becomes the working record, the handler goes active, and the
      duration and unit are sent, followed by the count and the pregnant flag
      when there are children. The previous state plays no part. */
  function AvatarTransition(store: Store, pathPresent: bool, avatarId: string): (t: Transition)
    ensures !pathPresent ==> t == Transition(HandlerState(false, None), store, [])
    ensures pathPresent ==> t.state.active && avatarId in t.store && t.state.record == Some(t.store[avatarId])
    ensures pathPresent && avatarId in store ==> t.store == store
    ensures pathPresent && avatarId !in store ==>
              t.store == store[avatarId := DefaultChildInfo] && t.state.record == Some(DefaultChildInfo)
    ensures pathPresent ==>
              var rec := t.state.record.value;
              && |t.sent| == (if rec.childCount > 0 then 4 else 2)
              && t.sent[0] == OscMessage(GestationTimeAddress, [Float(rec.gestationTime)])
              && t.sent[1] == OscMessage(GestationAddress, [Int(ToU8(rec.gestation))])
              && (rec.childCount > 0 ==>
                    t.sent[2] == OscMessage(ChildCountAddress, [Int(rec.childCount)])
                    && t.sent[3] == OscMessage(IsPregnantAddress, [Bool(true)]))
  {
    if pathPresent then
      var store' := if avatarId in store then store else store[avatarId := DefaultChildInfo];
      var rec := store'[avatarId];
      Transition(HandlerState(true, Some(rec)), store', ResyncMessages(rec))
    else Transition(HandlerState(false, None), store, [])
  }

  // ---------------------------------------------------------------------
  // The composed handler

  /** Everything the handler reads and writes. */
  datatype World = World(state: HandlerState, cache: OscQueryCache.Cache, store: Store)

  /** The inputs of one handler step: monotonic-clock readings (ms) at the
      parameter fetch and at the clear, the wall clock (s), the registered
      metadata endpoint, what the two HTTP endpoints return, and the `f32`
      text conversions. */
  datatype Env = Env(
    fetchAt: int,
    clearAt: int,
    clock: int,
    registry: Option<VrcAddress>,
    parametersFetch: OscQueryCache.FetchOutcome,
    changeFetch: OscQueryCache.FetchOutcome,
    floats: FloatFormat)

  /** Why the source panics (an `unwrap` or `expect` failing). */
  datatype Fault =
    | FetchFailed       // an HTTP request failed
    | MissingAvatarId   // the metadata named no avatar
    | UnknownAvatar     // the avatar has no entry in the store
    | NoRecord          // there is no working record to save
    | BadArgument       // a message argument did not parse

  /** The world after a step and the messages it sent. */
  datatype Step = Step(world: World, sent: seq<OscMessage>)

  /** The cache after asking for the avatar id, and the id or the fault. */
  datatype Keyed = Keyed(cache: OscQueryCache.Cache, id: Result<string, Fault>)

  /** `get_avatar_id().unwrap().expect(..)`: the id, or the panic. */
  function AvatarKey(c: OscQueryCache.Cache, env: Env): (k: Keyed)
    ensures var a := OscQueryCache.GetAvatarId(c, GetOscQuery(env.registry), env.changeFetch);
            && k.cache == a.cache
            && (k.id.Success? <==> a.result.Success? && a.result.value.Some?)
            && (k.id.Success? ==> k.id.value == a.result.value.value)
  {
    var a := OscQueryCache.GetAvatarId(c, GetOscQuery(env.registry), env.changeFetch);
    match a.result
    case Failure(_) => Keyed(a.cache, Failure(FetchFailed))
    case Success(None) => Keyed(a.cache, Failure(MissingAvatarId))
    case Success(Some(id)) => Keyed(a.cache, Success(id))
  }

  /** `save_data()`: the working record replaces the current avatar's entry
      in the store; the avatar must already have one. Nothing else changes
      but the cache's memo of the id. */
  function SaveData(w: World, env: Env): (r: Result<World, Fault>)
    ensures var k := AvatarKey(w.cache, env);
            r.Success? <==> k.id.Success? && k.id.value in w.store && w.state.record.Some?
    ensures r.Success? ==>
              var id := AvatarKey(w.cache, env).id.value;
              && r.value.state == w.state
              && r.value.cache == AvatarKey(w.cache, env).cache
              && r.value.store == w.store[id := w.state.record.value]
              && r.value.store.Keys == w.store.Keys
  {
    var k := AvatarKey(w.cache, env);
    match k.id
    case Failure(f) => Failure(f)
    case Success(id) =>
      if id !in w.store then Failure(UnknownAvatar)
      else match w.state.record
        case None => Failure(NoRecord)
        case Some(rec) => Success(w.(cache := k.cache, store := w.store[id := rec]))
  }

  /** `check_avatar_oscquery()`: read the parameter tree, clear the avatar
      memo (debounced), and decide by whether the tree carries
      /CONTENTS/PregnancySave; the id is asked for only when it does. */
  function CheckAvatar(w: World, env: Env): (r: Result<Step, Fault>)
    ensures r.Success? ==> r.value.world.store.Keys >= w.store.Keys
    ensures r.Success? ==> forall id :: id in w.store ==> r.value.world.store[id] == w.store[id]
    ensures r.Success? && !r.value.world.state.active ==>
              && r.value.world.state.record.None? && r.value.sent == [] && r.value.world.store == w.store
              && r.value.world.cache == OscQueryCache.ClearAvatar(
                   OscQueryCache.GetAvatarParameters(w.cache, env.fetchAt, GetOscQuery(env.registry), env.parametersFetch).cache,
                   env.clearAt)
    ensures var p := OscQueryCache.GetAvatarParameters(w.cache, env.fetchAt, GetOscQuery(env.registry), env.parametersFetch);
            var k := AvatarKey(OscQueryCache.ClearAvatar(p.cache, env.clearAt), env);
            && (r.Failure? <==> p.result.Failure? || (Json.HasPregnancySave(p.result.value) && k.id.Failure?))
            && (r.Success? ==> (r.value.world.state.active <==> Json.HasPregnancySave(p.result.value)))
            && (r.Success? && r.value.world.state.active ==>
                  var id := k.id.value;
                  && r.value.world.state.record == Some(if id in w.store then w.store[id] else DefaultChildInfo)
                  && r.value.world.store == (if id in w.store then w.store else w.store[id := DefaultChildInfo])
                  && r.value.world.cache == k.cache
                  && r.value.sent == ResyncMessages(r.value.world.state.record.value))
  {
    var p := OscQueryCache.GetAvatarParameters(w.cache, env.fetchAt, GetOscQuery(env.registry), env.parametersFetch);
    match p.result
    case Failure(_) => Failure(FetchFailed)
    case Success(data) =>
      var cleared := OscQueryCache.ClearAvatar(p.cache, env.clearAt);
      if Json.HasPregnancySave(data) then
        var k := AvatarKey(cleared, env);
        match k.id
        case Failure(f) => Failure(f)
        case Success(id) =>
          var t := AvatarTransition(w.store, true, id);
          Success(Step(World(t.state, k.cache, t.store), t.sent))
      else
        var t := AvatarTransition(w.store, false, "");
        Success(Step(World(t.state, cleared, t.store), t.sent))
  }

  /** The text `handle` reads a value from: `auto_convert` of the argument
      list's `Debug` text, or that text itself when it does not convert. A
      single integer reads as its decimal when it fits an i16, and a single
      boolean as "true" or "false". */
  function ArgText(args: seq<OscType>, ff: FloatFormat): (r: string)
    ensures AutoConvert(DebugArgs(args, ff), ff).None? ==> r == DebugArgs(args, ff)
    ensures |args| == 1 && args[0].Int? ==>
              r == if -0x8000 <= args[0].i <= 0x7FFF then IntToString(args[0].i) else DebugArgs(args, ff)
    ensures |args| == 1 && args[0].Bool? ==> r == BoolToString(args[0].b)
  {
    var raw := DebugArgs(args, ff);
    var text := match AutoConvert(raw, ff) case Some(c) => c.text case None => raw;
    if |args| == 1 && args[0].Int? then
      assert args == [Int(args[0].i)];
      AutoConvertIntArg(args[0].i, ff);
      text
    else if |args| == 1 && args[0].Bool? then
      assert args == [Bool(args[0].b)];
      AutoConvertBoolArg(args[0].b, ff);
      text
    else text
  }

  /** A one-integer message yields a count exactly when the integer fits a u8. */
  lemma ArgTextIntAsU8(n: I32, ff: FloatFormat)
    ensures ParseU8(ArgText([Int(n)], ff)) == if 0 <= n <= 0xFF then Some(n) else None
  {
    AutoConvertIntArg(n, ff);
    if -0x8000 <= n <= 0x7FFF {
      ParseIntToString(n, false, 0, 0xFF);
    } else {
      ParseRejectsLeadingJunk(DebugArgs([Int(n)], ff), false, 0, 0xFF);
    }
  }

  /** `PregancyHandler::handle`: the three parameter addresses act only while
      active, each storing its value and saving; an avatar change re-runs the
      avatar check; anything else, and every bundle, changes nothing. */
  function Handle(w: World, env: Env, packet: OscPacket): (r: Result<Step, Fault>)
    ensures packet.Bundle? ==> r == Success(Step(w, []))
    ensures packet.Message? && packet.msg.addr == AvatarChangeAddress ==> r == CheckAvatar(w, env)
    ensures packet.Message? && packet.msg.addr != AvatarChangeAddress && r.Success? ==>
              r.value.world.state.active == w.state.active
    ensures (packet.Message? && !w.state.active
             && packet.msg.addr in {ChildcountAddress, GestationTimeAddress, GestationAddress})
            ==> r == Success(Step(w, []))
    ensures (packet.Message?
             && packet.msg.addr !in {ChildcountAddress, GestationTimeAddress, GestationAddress, AvatarChangeAddress})
            ==> r == Success(Step(w, []))
  {
    match packet
    case Bundle => Success(Step(w, []))
    case Message(m) =>
      var value := ArgText(m.args, env.floats);
      if m.addr == ChildcountAddress then
        if !w.state.active then Success(Step(w, []))
        else match ParseU8(value)
          case None => Failure(BadArgument)
          case Some(v) =>
            var u := ChildCounter(w.state.record, v, env.clock);
            SaveAndReport(w.(state := w.state.(record := u.cell)), env, u.sent)
      else if m.addr == GestationTimeAddress then
        if !w.state.active then Success(Step(w, []))
        else match env.floats.parse(value)
          case None => Failure(BadArgument)
          case Some(x) =>
            SaveAndReport(w.(state := w.state.(record := SetGestationTime(w.state.record, x))), env, [])
      else if m.addr == GestationAddress then
        if !w.state.active then Success(Step(w, []))
        else match ParseU8(value)
          case None => Failure(BadArgument)
          case Some(v) =>
            SaveAndReport(w.(state := w.state.(record := SetGestationType(w.state.record, v))), env, [])
      else if m.addr == AvatarChangeAddress then CheckAvatar(w, env)
      else Success(Step(w, []))
  }

  /** Save the world and report the messages already sent. */
  function SaveAndReport(w: World, env: Env, sent: seq<OscMessage>): (r: Result<Step, Fault>)
    ensures r.Success? <==> SaveData(w, env).Success?
    ensures r.Success? ==> r == Success(Step(SaveData(w, env).value, sent))
  {
    match SaveData(w, env)
    case Failure(f) => Failure(f)
    case Success(w') => Success(Step(w', sent))
  }

  /** A child-count message while active: a larger count is taken (and the
      conception time stamped if missing), and the record is saved under
      the current avatar. */
  lemma HandleChildcount(w: World, env: Env, n: I32)
    requires w.state.active && w.state.record.Some?
    requires 0 <= n <= 0xFF
    ensures var r := Handle(w, env, Message(OscMessage(ChildcountAddress, [Int(n)])));
            var u := ChildCounter(w.state.record, n, env.clock);
            && (r.Success? <==> SaveData(w.(state := w.state.(record := u.cell)), env).Success?)
            && (r.Success? ==>
                  && r.value.world.state.record == u.cell
                  && r.value.world.store == w.store[AvatarKey(w.cache, env).id.value := u.cell.value]
                  && r.value.sent == u.sent)
  {
    ArgTextIntAsU8(n, env.floats);
  }

  /** A child-count message whose integer does not fit a u8 makes the source
      panic while active. */
  lemma HandleChildcountOutOfRange(w: World, env: Env, n: I32)
    requires w.state.active
    requires n < 0 || n > 0xFF
    ensures Handle(w, env, Message(OscMessage(ChildcountAddress, [Int(n)]))) == Failure(BadArgument)
  {
    ArgTextIntAsU8(n, env.floats);
  }

  /** A duration message while active: text that parses as an `f32` x
      replaces only the duration and is saved under the current avatar; text
      that does not parse is the source's panic. */
  lemma HandleGestationTime(w: World, env: Env, args: seq<OscType>)
    requires w.state.active && w.state.record.Some?
    ensures var r := Handle(w, env, Message(OscMessage(GestationTimeAddress, args)));
            var x := env.floats.parse(ArgText(args, env.floats));
            && (x.None? ==> r == Failure(BadArgument))
            && (x.Some? ==>
                  var rec := w.state.record.value.(gestationTime := x.value);
                  && (r.Success? <==> SaveData(w.(state := w.state.(record := Some(rec))), env).Success?)
                  && (r.Success? ==>
                        && r.value.world.state == w.state.(record := Some(rec))
                        && r.value.world.store == w.store[AvatarKey(w.cache, env).id.value := rec]
                        && r.value.sent == []))
  {
  }

  /** A unit message while active stores the unit with that discriminant,
      Hours when out of range. */
  lemma HandleGestation(w: World, env: Env, n: I32)
    requires w.state.active && w.state.record.Some?
    requires 0 <= n <= 0xFF
    ensures var r := Handle(w, env, Message(OscMessage(GestationAddress, [Int(n)])));
            var rec := SetGestationType(w.state.record, n);
            && (r.Success? <==> SaveData(w.(state := w.state.(record := rec)), env).Success?)
            && (r.Success? ==>
                  && r.value.world.state == w.state.(record := rec)
                  && r.value.world.store == w.store[AvatarKey(w.cache, env).id.value := rec.value]
                  && rec.value.gestation == (if n <= 4 then TryFromU8(n).value else Hours)
                  && r.value.sent == [])
  {
    ArgTextIntAsU8(n, env.floats);
    var rec := SetGestationType(w.state.record, n);
    if n <= 4 {
      ToU8Injective(rec.value.gestation, TryFromU8(n).value);
    }
  }

  /** A unit message whose integer does not fit a u8 makes the source panic
      while active. */
  lemma HandleGestationOutOfRange(w: World, env: Env, n: I32)
    requires w.state.active
    requires n < 0 || n > 0xFF
    ensures Handle(w, env, Message(OscMessage(GestationAddress, [Int(n)]))) == Failure(BadArgument)
  {
    ArgTextIntAsU8(n, env.floats);
  }

  // ---------------------------------------------------------------------
  // The window's buttons and the periodic broadcast

  datatype UiAction = AddChildPressed | RemoveChildPressed | RecheckAvatarPressed

  /** One button press. The record buttons exist only while there is a
      record; they save only when they changed the count. */
  function UiStep(w: World, env: Env, action: UiAction): (r: Result<Step, Fault>)
    ensures action == RecheckAvatarPressed ==> r == CheckAvatar(w, env)
    ensures action != RecheckAvatarPressed && w.state.record.None? ==> r == Success(Step(w, []))
    ensures action != RecheckAvatarPressed && r.Success? ==> r.value.world.state.active == w.state.active
    ensures action == AddChildPressed && w.state.record.Some? && r.Success? ==>
              r.value.world.state.record == Some(AddChild(w.state.record.value, env.clock).record)
    ensures action == RemoveChildPressed && w.state.record.Some? && r.Success? ==>
              r.value.world.state.record == Some(RemoveChild(w.state.record.value).record)
  {
    if action == RecheckAvatarPressed then CheckAvatar(w, env)
    else match w.state.record
      case None => Success(Step(w, []))
      case Some(c) =>
        var u := if action == AddChildPressed then AddChild(c, env.clock) else RemoveChild(c);
        var w' := w.(state := w.state.(record := Some(u.record)));
        if u.persist then SaveAndReport(w', env, u.sent) else Success(Step(w', u.sent))
  }

  /** The argument a progress value goes out as (`as f32`). */
  function ProgressArg(f: Fraction): OscType {
    match f
    case Finite(v) => Float(v)
    case NegativeInfinity => FloatNegInfinity
  }

  /** One wake-up of the broadcast loop: while active with children, the
      progress fraction goes out to PregnancySave. */
  function BroadcastTick(st: HandlerState, clock: int): (sent: seq<OscMessage>)
    ensures |sent| <= 1
    ensures |sent| == 1 <==> st.active && CountOf(st.record) > 0
    ensures |sent| == 1 ==>
              sent[0] == OscMessage(PregnancySaveAddress, [ProgressArg(ProgressFraction(st.record, clock))])
    ensures |sent| == 1 && sent[0].args[0].Float? ==> sent[0].args[0].f <= 1.0
  {
    if st.active && CountOf(st.record) > 0 then
      [OscMessage(PregnancySaveAddress, [ProgressArg(ProgressFraction(st.record, clock))])]
    else []
  }

  /** Before any avatar check nothing is broadcast, and a record button
      does nothing. */
  lemma InitialStateSilent(cache: OscQueryCache.Cache, store: Store, env: Env, clock: int)
    ensures BroadcastTick(InitialState, clock) == []
    ensures UiStep(World(InitialState, cache, store), env, AddChildPressed)
         == Success(Step(World(InitialState, cache, store), []))
  {
  }

  /** While active with children, a record of positive-zero length whose conception time
      has passed broadcasts 1, and one whose conception time lies ahead
      broadcasts negative infinity. */
  lemma BroadcastZeroLength(st: HandlerState, clock: int)
    requires st.active && st.record.Some? && st.record.value.childCount > 0
    requires st.record.value.conceptionTime.Some? && TotalSeconds(st.record.value) == 0.0
    ensures BroadcastTick(st, clock)
         == [OscMessage(PregnancySaveAddress,
               [if clock >= st.record.value.conceptionTime.value then Float(1.0) else FloatNegInfinity])]
  {
  }

  /** The Add Child button below the limit: the record gains a child, the
      count is announced, and the record is saved under the current avatar
      (a failed save is the source's panic). */
  lemma UiAddChildSaves(w: World, env: Env, c: ChildInfo)
    requires w.state.record == Some(c) && c.childCount < MaxChildren
    ensures var r := UiStep(w, env, AddChildPressed);
            var rec := AddChild(c, env.clock).record;
            && (r.Success? <==> SaveData(w.(state := w.state.(record := Some(rec))), env).Success?)
            && (r.Success? ==>
                  && r.value.world.state == w.state.(record := Some(rec))
                  && r.value.world.store == w.store[AvatarKey(w.cache, env).id.value := rec]
                  && r.value.sent == [ChildCountMessage(c.childCount + 1)])
  {
  }

  /** The Add Child button at the limit: only a missing conception time is
      stamped; nothing is sent and the store is not written. */
  lemma UiAddChildAtLimit(w: World, env: Env, c: ChildInfo)
    requires w.state.record == Some(c) && c.childCount >= MaxChildren
    ensures var r := UiStep(w, env, AddChildPressed);
            && r.Success? && r.value.sent == []
            && r.value.world == w.(state := w.state.(record := Some(AddChild(c, env.clock).record)))
  {
  }

  /** The Remove Child button with children: one fewer, announced, and saved
      under the current avatar. */
  lemma UiRemoveChildSaves(w: World, env: Env, c: ChildInfo)
    requires w.state.record == Some(c) && c.childCount > 0
    ensures var r := UiStep(w, env, RemoveChildPressed);
            var rec := RemoveChild(c).record;
            && (r.Success? <==> SaveData(w.(state := w.state.(record := Some(rec))), env).Success?)
            && (r.Success? ==>
                  && r.value.world.state == w.state.(record := Some(rec))
                  && r.value.world.store == w.store[AvatarKey(w.cache, env).id.value := rec]
                  && r.value.sent == [ChildCountMessage(c.childCount - 1)])
  {
  }

  /** The Remove Child button with no children does nothing. */
  lemma UiRemoveChildAtZero(w: World, env: Env, c: ChildInfo)
    requires w.state.record == Some(c) && c.childCount == 0
    ensures UiStep(w, env, RemoveChildPressed) == Success(Step(w, []))
  {
  }

  // ---------------------------------------------------------------------
  // Scenarios

  /** An avatar change whose parameter tree lacks the subtree: inactive, no
      record, nothing sent, store untouched. */
  lemma CheckAvatarWithoutSubtree(w: World, env: Env)
    requires var p := OscQueryCache.GetAvatarParameters(w.cache, env.fetchAt, GetOscQuery(env.registry), env.parametersFetch);
             p.result.Success? && !Json.HasPregnancySave(p.result.value)
    ensures var r := CheckAvatar(w, env);
            r.Success? && r.value.world.state == HandlerState(false, None)
            && r.value.sent == [] && r.value.world.store == w.store
  {
  }

  /** An avatar change onto an avatar whose stored record has two children
      and eight hours: active, and the duration 8, unit Hours (0), count 2
      and the pregnant flag are sent, in that order. */
  lemma CheckAvatarTwoChildren(w: World, env: Env, id: string, t: int)
    requires var p := OscQueryCache.GetAvatarParameters(w.cache, env.fetchAt, GetOscQuery(env.registry), env.parametersFetch);
             p.result.Success? && Json.HasPregnancySave(p.result.value)
             && AvatarKey(OscQueryCache.ClearAvatar(p.cache, env.clearAt), env).id == Success(id)
    requires id in w.store && w.store[id] == ChildInfo(Some(t), 8.0, Hours, 2)
    ensures var r := CheckAvatar(w, env);
            && r.Success? && r.value.world.state == HandlerState(true, Some(w.store[id]))
            && r.value.sent == [
                 OscMessage(GestationTimeAddress, [Float(8.0)]),
                 OscMessage(GestationAddress, [Int(0)]),
                 OscMessage(ChildCountAddress, [Int(2)]),
                 OscMessage(IsPregnantAddress, [Bool(true)])]
  {
  }

  /** A count of 3 arriving over a stored count of 2 with no conception
      time: the time is stamped with now, the count becomes 3, and the store
      is written. */
  lemma HandleChildcountScenario(w: World, env: Env, c: ChildInfo)
    requires w.state.active && w.state.record == Some(c)
    requires c.childCount == 2 && c.conceptionTime.None?
    requires SaveData(w.(state := w.state.(record := Some(c.(childCount := 3, conceptionTime := Some(env.clock))))), env).Success?
    ensures var r := Handle(w, env, Message(OscMessage(ChildcountAddress, [Int(3)])));
            var c' := c.(childCount := 3, conceptionTime := Some(env.clock));
            && r.Success? && r.value.world.state.record == Some(c')
            && r.value.world.store == w.store[AvatarKey(w.cache, env).id.value := c']
  {
    HandleChildcount(w, env, 3);
  }
}
