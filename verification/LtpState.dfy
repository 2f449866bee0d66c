/** The tables of an LTP engine (ltp.h) and the searches over them. */
module LtpState {
  import opened Bytes
  import opened ClaimMap
  import opened LtpSegment

  const MAX_EXPORT_SESSIONS := 128
  const MAX_IMPORT_SESSIONS := 128
  const MAX_TIMERS := 256
  const MAX_BLOCK_SIZE := 2048
  const DEFAULT_SEGMENT_MTU := 64

  const CHECKPOINT_TIMER := 0
  const REPORT_TIMER := 1
  const CANCEL_TIMER := 2

  type Buffer = s: seq<byte> | |s| == MAX_BLOCK_SIZE witness seq(MAX_BLOCK_SIZE, _ => 0)
  type Length = x: nat | x <= MAX_BLOCK_SIZE

  datatype Config = Config(mtu: nat, owltMs: nat, maxRetries: nat, maxBlockSize: nat)

  /** What the engine demands of its configuration: a positive MTU, and blocks that fit the session buffers. */
  predicate ConfigOk(c: Config) {
    c.mtu > 0 && c.maxBlockSize <= MAX_BLOCK_SIZE
  }

  datatype Export = Export(active: bool, engine: nat, session: nat, remote: nat, data: Buffer, len: Length, mtu: nat,
                           nextCp: nat, completed: bool, cancelled: bool)
  {
    /** The block the session was opened for. */
    function Block(): seq<byte> { data[..len] }
  }

  datatype Import = Import(active: bool, engine: nat, session: nat, data: Buffer, len: Length, claims: Claims,
                           nextRpt: nat, complete: bool, delivered: bool)

  datatype Timer = Timer(active: bool, kind: nat, engine: nat, session: nat, serial: nat, retries: int, expiry: int)

  datatype Engine = Engine(config: Config, localId: nat, nextSession: nat,
                           exports: seq<Export>, imports: seq<Import>, timers: seq<Timer>)

  /** One call of the block callback. */
  datatype Delivery = Delivery(engine: nat, session: nat, block: seq<byte>)

  /** What a call does: the new tables, the segments written, the blocks handed to the application. */
  datatype Effect = Effect(engine: Engine, sent: seq<Segment>, delivered: seq<Delivery>)

  function Zeroes(n: nat): (z: seq<byte>)
    ensures |z| == n && forall i :: 0 <= i < n ==> z[i] == 0
  {
    if n == 0 then [] else Zeroes(n - 1) + [0]
  }

  function NoExport(): Export {
    Export(false, 0, 0, 0, Zeroes(MAX_BLOCK_SIZE), 0, 0, 0, false, false)
  }

  function NoImport(): Import {
    Import(false, 0, 0, Zeroes(MAX_BLOCK_SIZE), 0, [], 0, false, false)
  }

  function NoTimer(): Timer {
    Timer(false, 0, 0, 0, 0, 0, 0)
  }

  function InitialEngine(config: Config, localId: nat): Engine {
    Engine(config, localId, 1, seq(MAX_EXPORT_SESSIONS, _ => NoExport()), seq(MAX_IMPORT_SESSIONS, _ => NoImport()),
           seq(MAX_TIMERS, _ => NoTimer()))
  }

  // ---- Searches: the index of the first match, or the table's size ----

  function FreeExport(xs: seq<Export>): (k: nat)
    ensures k <= |xs| && (k < |xs| ==> !xs[k].active) && forall i :: 0 <= i < k ==> xs[i].active
  {
    FirstIndex(xs, (x: Export) => !x.active)
  }

  function FindExport(xs: seq<Export>, session: nat): (k: nat)
    ensures k <= |xs| && (k < |xs| ==> xs[k].active && xs[k].session == session)
    ensures forall i :: 0 <= i < k ==> !(xs[i].active && xs[i].session == session)
  {
    FirstIndex(xs, (x: Export) => x.active && x.session == session)
  }

  function FindOwnExport(xs: seq<Export>, engine: nat, session: nat): (k: nat)
    ensures k <= |xs| && (k < |xs| ==> xs[k].active && xs[k].engine == engine && xs[k].session == session)
    ensures forall i :: 0 <= i < k ==> !(xs[i].active && xs[i].engine == engine && xs[i].session == session)
  {
    FirstIndex(xs, (x: Export) => x.active && x.engine == engine && x.session == session)
  }

  function FreeImport(ms: seq<Import>): (k: nat)
    ensures k <= |ms| && (k < |ms| ==> !ms[k].active) && forall i :: 0 <= i < k ==> ms[i].active
  {
    FirstIndex(ms, (m: Import) => !m.active)
  }

  function FindImport(ms: seq<Import>, engine: nat, session: nat): (k: nat)
    ensures k <= |ms| && (k < |ms| ==> ms[k].active && ms[k].engine == engine && ms[k].session == session)
    ensures forall i :: 0 <= i < k ==> !(ms[i].active && ms[i].engine == engine && ms[i].session == session)
  {
    FirstIndex(ms, (m: Import) => m.active && m.engine == engine && m.session == session)
  }

  function FindImportByNumber(ms: seq<Import>, session: nat): (k: nat)
    ensures k <= |ms| && (k < |ms| ==> ms[k].active && ms[k].session == session)
    ensures forall i :: 0 <= i < k ==> !(ms[i].active && ms[i].session == session)
  {
    FirstIndex(ms, (m: Import) => m.active && m.session == session)
  }

  function FreeTimer(ts: seq<Timer>): (k: nat)
    ensures k <= |ts| && (k < |ts| ==> !ts[k].active) && forall i :: 0 <= i < k ==> ts[i].active
  {
    FirstIndex(ts, (t: Timer) => !t.active)
  }

  predicate TimerMatches(t: Timer, kind: nat, session: nat, serial: nat) {
    t.active && t.kind == kind && t.session == session && t.serial == serial
  }

  function FindTimer(ts: seq<Timer>, kind: nat, session: nat, serial: nat): (k: nat)
    ensures k <= |ts| && (k < |ts| ==> TimerMatches(ts[k], kind, session, serial))
    ensures forall i :: 0 <= i < k ==> !TimerMatches(ts[i], kind, session, serial)
  {
    FirstIndex(ts, (t: Timer) => TimerMatches(t, kind, session, serial))
  }
}
