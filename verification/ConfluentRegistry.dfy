/** The Confluent registry client: schema ids handed out under two separate locks, and the 5-byte wire header. */
module ConfluentRegistry {
  import opened Wrappers

  type Byte = x: int | 0 <= x < 256

  const U32_LIMIT: nat := 0x1_0000_0000

  const FIRST_ID: nat := 100

  // Concurrent registration, one step per lock section.

  /** A call to register a subject: not begun, past the cache lookup without a hit, or returned. */
  datatype Call = Begun(subject: string) | Missed(subject: string) | Returned(subject: string, id: nat)

  datatype Registry = Registry(nextId: nat, cache: map<string, nat>)

  datatype System = System(registry: Registry, calls: seq<Call>)

  const EMPTY := Registry(FIRST_ID, map[])

  /** Under both write locks: take the next id, which wraps at 32 bits, and cache it. */
  function Assign(r: Registry, subject: string): (Registry, nat) {
    (Registry((r.nextId + 1) % U32_LIMIT, r.cache[subject := r.nextId]), r.nextId)
  }

  /** A new call arrives, or the next lock section of an open call runs. */
  datatype Act = Arrive(subject: string) | Proceed(call: nat)

  function Next(s: System, a: Act): System {
    match a
    case Arrive(subject) => s.(calls := s.calls + [Begun(subject)])
    case Proceed(i) =>
      if i >= |s.calls| then s
      else
        match s.calls[i]
        case Begun(subject) =>
          if subject in s.registry.cache
          then s.(calls := s.calls[i := Returned(subject, s.registry.cache[subject])])
          else s.(calls := s.calls[i := Missed(subject)])
        case Missed(subject) =>
          var (r, id) := Assign(s.registry, subject);
          System(r, s.calls[i := Returned(subject, id)])
        case Returned(_, _) => s
  }

  function After(acts: seq<Act>): System {
    if acts == [] then System(EMPTY, []) else Next(After(acts[..|acts| - 1]), acts[|acts| - 1])
  }

  /** The subject a step assigns an id to, if any. */
  function AssignedBy(s: System, a: Act): seq<string> {
    if a.Proceed? && a.call < |s.calls| && s.calls[a.call].Missed? then [s.calls[a.call].subject] else []
  }

  /** The subjects in the order in which they were assigned ids. */
  function Assigned(acts: seq<Act>): seq<string> {
    if acts == [] then []
    else
      var front := acts[..|acts| - 1];
      Assigned(front) + AssignedBy(After(front), acts[|acts| - 1])
  }

  function IdOf(n: nat): nat {
    (FIRST_ID + n) % U32_LIMIT
  }

  /** The id was assigned to the subject. */
  ghost predicate Issued(order: seq<string>, subject: string, id: nat) {
    exists n :: 0 <= n < |order| && order[n] == subject && id == IdOf(n)
  }

  ghost predicate AllIssued(s: System, order: seq<string>) {
    && s.registry.nextId == IdOf(|order|)
    && (forall t :: t in s.registry.cache ==> Issued(order, t, s.registry.cache[t]))
    && (forall i :: 0 <= i < |s.calls| && s.calls[i].Returned? ==> Issued(order, s.calls[i].subject, s.calls[i].id))
  }

  lemma IssuedExtends(order: seq<string>, more: string, subject: string, id: nat)
    requires Issued(order, subject, id)
    ensures Issued(order + [more], subject, id)
  {
    var n :| 0 <= n < |order| && order[n] == subject && id == IdOf(n);
    assert (order + [more])[n] == subject;
  }

  lemma NewestIssued(order: seq<string>, subject: string)
    ensures Issued(order + [subject], subject, IdOf(|order|))
    ensures IdOf(|order| + 1) == (IdOf(|order|) + 1) % U32_LIMIT
  {
    assert (order + [subject])[|order|] == subject;
  }

  lemma AssignIssues(s: System, order: seq<string>, i: nat)
    requires AllIssued(s, order) && i < |s.calls| && s.calls[i].Missed?
    ensures AllIssued(Next(s, Proceed(i)), order + [s.calls[i].subject])
  {
    hide Issued, IdOf;
    var subject := s.calls[i].subject;
    var more := order + [subject];
    var t := Next(s, Proceed(i));
    NewestIssued(order, subject);
    forall u | u in t.registry.cache
      ensures Issued(more, u, t.registry.cache[u])
    {
      if u != subject {
        IssuedExtends(order, subject, u, s.registry.cache[u]);
      }
    }
    forall j | 0 <= j < |t.calls| && t.calls[j].Returned?
      ensures Issued(more, t.calls[j].subject, t.calls[j].id)
    {
      if j != i {
        IssuedExtends(order, subject, s.calls[j].subject, s.calls[j].id);
      }
    }
  }

  lemma {:induction false} EveryIdIssued(acts: seq<Act>)
    ensures AllIssued(After(acts), Assigned(acts))
  {
    if acts != [] {
      var front := acts[..|acts| - 1];
      EveryIdIssued(front);
      match acts[|acts| - 1] {
        case Arrive(_) =>
        case Proceed(i) =>
          if i < |After(front).calls| && After(front).calls[i].Missed? {
            AssignIssues(After(front), Assigned(front), i);
          }
      }
    }
  }

  lemma ReturnedStays(s: System, a: Act, i: nat)
    requires i < |s.calls| && s.calls[i].Returned?
    ensures i < |Next(s, a).calls| && Next(s, a).calls[i] == s.calls[i]
  {
  }

  /** Every id assigned is what the call it was assigned for returned. */
  lemma {:induction false} AssignedIsReturned(acts: seq<Act>, n: nat) returns (i: nat)
    requires n < |Assigned(acts)|
    ensures i < |After(acts).calls| && After(acts).calls[i] == Returned(Assigned(acts)[n], IdOf(n))
  {
    var front := acts[..|acts| - 1];
    if n < |Assigned(front)| {
      i := AssignedIsReturned(front, n);
      ReturnedStays(After(front), acts[|acts| - 1], i);
    } else {
      EveryIdIssued(front);
      i := acts[|acts| - 1].call;
    }
  }

  predicate Shared(s: System) {
    exists i, j :: 0 <= i < |s.calls| && 0 <= j < |s.calls| && s.calls[i].Returned? && s.calls[j].Returned?
      && s.calls[i].id == s.calls[j].id && s.calls[i].subject != s.calls[j].subject
  }

  /**
   * In every interleaving two subjects are given one id exactly when two assignments a multiple of 2^32 apart,
   * where the ids have wrapped around, are for different subjects.
   */
  lemma IdsSharedExactly(acts: seq<Act>)
    ensures
      var a := Assigned(acts);
      Shared(After(acts)) <==> exists m, n :: 0 <= m < |a| && 0 <= n < |a| && IdOf(m) == IdOf(n) && a[m] != a[n]
  {
    hide After, Assigned, IdOf;
    EveryIdIssued(acts);
    var a := Assigned(acts);
    var calls := After(acts).calls;
    if Shared(After(acts)) {
      var i, j :| 0 <= i < |calls| && 0 <= j < |calls| && calls[i].Returned? && calls[j].Returned?
                  && calls[i].id == calls[j].id && calls[i].subject != calls[j].subject;
      var m :| 0 <= m < |a| && a[m] == calls[i].subject && calls[i].id == IdOf(m);
      var n :| 0 <= n < |a| && a[n] == calls[j].subject && calls[j].id == IdOf(n);
      assert IdOf(m) == IdOf(n) && a[m] != a[n];
    }
    if m, n :| 0 <= m < |a| && 0 <= n < |a| && IdOf(m) == IdOf(n) && a[m] != a[n] {
      var i := AssignedIsReturned(acts, m);
      var j := AssignedIsReturned(acts, n);
      assert calls[i].id == calls[j].id;
    }
  }

  lemma IdsDiffer(m: nat, n: nat)
    requires m < U32_LIMIT && n < U32_LIMIT && IdOf(m) == IdOf(n)
    ensures m == n
  {
  }

  /** So while no more ids have been assigned than there are 32-bit numbers, no two subjects share one. */
  lemma IdsNeverShared(acts: seq<Act>)
    requires |Assigned(acts)| <= U32_LIMIT
    ensures !Shared(After(acts))
  {
    hide After, Assigned, IdOf, Shared;
    IdsSharedExactly(acts);
    forall m: nat, n: nat | m < |Assigned(acts)| && n < |Assigned(acts)| && IdOf(m) == IdOf(n)
      ensures m == n
    {
      IdsDiffer(m, n);
    }
  }

  // When one subject keeps one id.

  predicate OneId(s: System, subject: string) {
    forall i, j ::
      (&& 0 <= i < |s.calls| && s.calls[i].Returned? && s.calls[i].subject == subject
       && 0 <= j < |s.calls| && s.calls[j].Returned? && s.calls[j].subject == subject)
      ==> s.calls[i].id == s.calls[j].id
  }

  predicate AssignedTwice(order: seq<string>, subject: string) {
    exists m, n :: 0 <= m < n < |order| && order[m] == order[n] == subject
  }

  /** All assignments to a subject are of the same id. */
  predicate AssignedAlike(order: seq<string>, subject: string) {
    forall m, n :: 0 <= m < n < |order| && order[m] == order[n] == subject ==> IdOf(m) == IdOf(n)
  }

  /**
   * All calls for a subject return one id exactly when its assignments lie multiples of 2^32 apart; before the
   * ids wrap around, that is, exactly when it was assigned an id at most once.
   */
  lemma OneIdExactly(acts: seq<Act>, subject: string)
    ensures OneId(After(acts), subject) <==> AssignedAlike(Assigned(acts), subject)
    ensures |Assigned(acts)| <= U32_LIMIT ==>
              (OneId(After(acts), subject) <==> !AssignedTwice(Assigned(acts), subject))
  {
    hide After, Assigned, IdOf;
    EveryIdIssued(acts);
    var a := Assigned(acts);
    var calls := After(acts).calls;
    forall m, n | 0 <= m < n < |a| && a[m] == a[n] == subject && OneId(After(acts), subject)
      ensures IdOf(m) == IdOf(n)
    {
      var i := AssignedIsReturned(acts, m);
      var j := AssignedIsReturned(acts, n);
      assert calls[i].id == calls[j].id;
    }
    forall m: nat, n: nat | m < n < |a| <= U32_LIMIT
      ensures IdOf(m) != IdOf(n)
    {
      if IdOf(m) == IdOf(n) {
        IdsDiffer(m, n);
      }
    }
  }

  /** Two calls for the subject are both past the lookup without a hit. */
  predicate Overlap(s: System, subject: string) {
    exists i, j :: 0 <= i < j < |s.calls| && s.calls[i] == s.calls[j] == Missed(subject)
  }

  predicate EverOverlap(acts: seq<Act>, subject: string) {
    exists k :: 0 <= k <= |acts| && Overlap(After(acts[..k]), subject)
  }

  predicate NoneMissed(s: System, subject: string) {
    Missed(subject) !in s.calls
  }

  lemma EverOverlapExtends(acts: seq<Act>, subject: string)
    requires acts != []
    ensures EverOverlap(acts, subject) <==> EverOverlap(acts[..|acts| - 1], subject) || Overlap(After(acts), subject)
  {
    hide Overlap, After;
    var front := acts[..|acts| - 1];
    assert acts[..|acts|] == acts;
    assert forall k :: 0 <= k <= |front| ==> front[..k] == acts[..k];
  }

  lemma {:induction false} CachedIffAssigned(acts: seq<Act>, subject: string)
    ensures subject in After(acts).registry.cache <==> subject in Assigned(acts)
  {
    if acts != [] {
      CachedIffAssigned(acts[..|acts| - 1], subject);
    }
  }

  /** Without an overlap a subject is assigned one id, and only when no call for it is left waiting. */
  lemma {:induction false} NoOverlapAssignsOnce(acts: seq<Act>, subject: string)
    requires !EverOverlap(acts, subject)
    ensures !AssignedTwice(Assigned(acts), subject)
    ensures subject in Assigned(acts) ==> NoneMissed(After(acts), subject)
  {
    if acts != [] {
      var front := acts[..|acts| - 1];
      EverOverlapExtends(acts, subject);
      NowOverlapIsEver(front, subject);
      NoOverlapAssignsOnce(front, subject);
      CachedIffAssigned(front, subject);
      OnceStep(After(front), Assigned(front), acts[|acts| - 1], subject);
    }
  }

  lemma OnceStep(s: System, order: seq<string>, a: Act, subject: string)
    requires !Overlap(s, subject) && !AssignedTwice(order, subject)
    requires subject in order ==> NoneMissed(s, subject)
    requires subject in s.registry.cache <==> subject in order
    ensures
      var t, more := Next(s, a), order + AssignedBy(s, a);
      !AssignedTwice(more, subject) && (subject in more ==> NoneMissed(t, subject))
  {
    var t, more := Next(s, a), order + AssignedBy(s, a);
    if AssignedBy(s, a) == [subject] {
      assert subject !in order && s.calls[a.call] == Missed(subject);
      assert forall j :: 0 <= j < |s.calls| && j != a.call ==> s.calls[j] != Missed(subject);
      assert forall j :: 0 <= j < |t.calls| && j != a.call ==> t.calls[j] == s.calls[j];
    } else {
      assert subject in more ==> subject in order;
      forall j | 0 <= j < |t.calls| && subject in order
        ensures t.calls[j] != Missed(subject)
      {
      }
    }
    forall m: nat, n: nat | m < n < |more| && more[n] == subject
      ensures more[m] != subject
    {
      assert more[m] == order[m];
    }
  }

  lemma NowOverlapIsEver(acts: seq<Act>, subject: string)
    requires !EverOverlap(acts, subject)
    ensures !Overlap(After(acts), subject)
  {
    hide Overlap, After;
    assert acts[..|acts|] == acts;
  }

  /** After an overlap the subject has been assigned two ids, or calls still waiting will see to it. */
  lemma {:induction false} OverlapAssignsTwice(acts: seq<Act>, subject: string)
    requires EverOverlap(acts, subject)
    ensures
      var s, a := After(acts), Assigned(acts);
      AssignedTwice(a, subject) || Overlap(s, subject) || (subject in a && !NoneMissed(s, subject))
  {
    if acts != [] {
      var front := acts[..|acts| - 1];
      EverOverlapExtends(acts, subject);
      if EverOverlap(front, subject) {
        OverlapAssignsTwice(front, subject);
        OverlapStep(After(front), Assigned(front), acts[|acts| - 1], subject);
      }
    }
  }

  lemma OverlapStep(s: System, order: seq<string>, a: Act, subject: string)
    requires AssignedTwice(order, subject) || Overlap(s, subject) || (subject in order && !NoneMissed(s, subject))
    ensures
      var t, more := Next(s, a), order + AssignedBy(s, a);
      AssignedTwice(more, subject) || Overlap(t, subject) || (subject in more && !NoneMissed(t, subject))
  {
    var t, more := Next(s, a), order + AssignedBy(s, a);
    if m, n :| 0 <= m < n < |order| && order[m] == order[n] == subject {
      assert more[m] == more[n] == subject;
    } else if i, j :| 0 <= i < j < |s.calls| && s.calls[i] == s.calls[j] == Missed(subject) {
      if a == Proceed(i) {
        assert more[|order|] == subject && t.calls[j] == Missed(subject);
      } else if a == Proceed(j) {
        assert more[|order|] == subject && t.calls[i] == Missed(subject);
      } else {
        assert t.calls[i] == t.calls[j] == Missed(subject);
      }
    } else {
      var m :| 0 <= m < |order| && order[m] == subject;
      var i :| 0 <= i < |s.calls| && s.calls[i] == Missed(subject);
      assert more[m] == subject;
      if a == Proceed(i) {
        assert more[|order|] == subject;
      } else {
        assert t.calls[i] == Missed(subject);
      }
    }
  }

  /**
   * When a subject keeps one id: always if no two calls for it ever wait past the lookup together, and once no
   * call for it is left waiting only then.
   */
  lemma OneIdExactlyWithoutOverlap(acts: seq<Act>, subject: string)
    ensures !EverOverlap(acts, subject) ==> OneId(After(acts), subject)
    ensures NoneMissed(After(acts), subject) && |Assigned(acts)| <= U32_LIMIT ==>
              (OneId(After(acts), subject) <==> !EverOverlap(acts, subject))
  {
    hide After, Assigned, EverOverlap, OneId, IdOf;
    OneIdExactly(acts, subject);
    if EverOverlap(acts, subject) {
      OverlapAssignsTwice(acts, subject);
    } else {
      NoOverlapAssignsOnce(acts, subject);
    }
  }

  /** An overlap that does give one subject two ids. */
  lemma OneSubjectMayGetTwoIds(subject: string)
    ensures
      var acts := [Arrive(subject), Arrive(subject), Proceed(0), Proceed(1), Proceed(0), Proceed(1)];
      var calls := After(acts).calls;
      |calls| == 2 && calls[0] == Returned(subject, 100) && calls[1] == Returned(subject, 101)
  {
    var a1 := [Arrive(subject)];
    var a2 := [Arrive(subject), Arrive(subject)];
    var a3 := [Arrive(subject), Arrive(subject), Proceed(0)];
    var a4 := [Arrive(subject), Arrive(subject), Proceed(0), Proceed(1)];
    var a5 := [Arrive(subject), Arrive(subject), Proceed(0), Proceed(1), Proceed(0)];
    var a6 := [Arrive(subject), Arrive(subject), Proceed(0), Proceed(1), Proceed(0), Proceed(1)];
    assert a1[..0] == [] && a2[..1] == a1 && a3[..2] == a2 && a4[..3] == a3 && a5[..4] == a4 && a6[..5] == a5;
    assert After(a1) == System(EMPTY, [Begun(subject)]);
    assert After(a2) == System(EMPTY, [Begun(subject), Begun(subject)]);
    assert After(a3) == System(EMPTY, [Missed(subject), Begun(subject)]);
    assert After(a4) == System(EMPTY, [Missed(subject), Missed(subject)]);
    assert After(a5).calls == [Returned(subject, 100), Missed(subject)] && After(a5).registry.nextId == 101;
    assert After(a6).calls == [Returned(subject, 100), Returned(subject, 101)];
  }

  // The client itself, called by one caller at a time, and its framing.

  /** Big-endian bytes of a 32-bit number. */
  function ToBytes(id: nat): (bytes: seq<Byte>)
    requires id < U32_LIMIT
    ensures |bytes| == 4
  {
    [id / 0x100_0000, id / 0x1_0000 % 0x100, id / 0x100 % 0x100, id % 0x100]
  }

  function FromBytes(bytes: seq<Byte>): (id: nat)
    requires |bytes| == 4
    ensures id < U32_LIMIT
  {
    0x100_0000 * bytes[0] as int + 0x1_0000 * bytes[1] as int + 0x100 * bytes[2] as int + bytes[3] as int
  }

  function Frame(id: nat, payload: seq<Byte>): seq<Byte>
    requires id < U32_LIMIT
  {
    [0] + ToBytes(id) + payload
  }

  datatype FrameError = TooShort | BadMagic(byte: Byte)

  function DecodeWireFormat(buffer: seq<Byte>): Result<(nat, seq<Byte>), FrameError> {
    if |buffer| < 5 then Err(TooShort)
    else if buffer[0] != 0 then Err(BadMagic(buffer[0]))
    else Ok((FromBytes(buffer[1..5]), buffer[5..]))
  }

  lemma BytesRoundTrip(id: nat)
    requires id < U32_LIMIT
    ensures FromBytes(ToBytes(id)) == id
  {
    DivideTwice(id, 0x100, 0x100);
    DivideTwice(id, 0x1_0000, 0x100);
    assert id == 0x100 * (id / 0x100) + id % 0x100;
    assert id / 0x100 == 0x100 * (id / 0x1_0000) + id / 0x100 % 0x100;
    assert id / 0x1_0000 == 0x100 * (id / 0x100_0000) + id / 0x1_0000 % 0x100;
  }

  lemma DivideTwice(n: int, d: int, e: int)
    requires n >= 0 && d > 0 && e > 0
    ensures n / d / e == n / (d * e)
  {
    var q := n / d / e;
    var r := d * (n / d % e) + n % d;
    assert n / d == e * q + n / d % e;
    assert d * (n / d) == d * (e * q) + d * (n / d % e);
    assert d * (e * q) == d * e * q;
    assert d * (n / d % e) <= d * (e - 1);
    DivideBy(n, d * e, q, r);
  }

  lemma NumberRoundTrip(bytes: seq<Byte>)
    requires |bytes| == 4
    ensures ToBytes(FromBytes(bytes)) == bytes
  {
    var n := FromBytes(bytes);
    DivideBy(n, 0x100, 0x1_0000 * bytes[0] as int + 0x100 * bytes[1] as int + bytes[2] as int, bytes[3]);
    DivideBy(n, 0x1_0000, 0x100 * bytes[0] as int + bytes[1] as int, 0x100 * bytes[2] as int + bytes[3] as int);
    DivideBy(n / 0x100, 0x100, 0x100 * bytes[0] as int + bytes[1] as int, bytes[2]);
    DivideBy(n / 0x1_0000, 0x100, bytes[0], bytes[1]);
    DivideBy(n, 0x100_0000, bytes[0], 0x1_0000 * bytes[1] as int + 0x100 * bytes[2] as int + bytes[3] as int);
  }

  lemma DivideBy(n: int, d: int, q: int, r: int)
    requires 0 <= r < d && n == d * q + r
    ensures n / d == q && n % d == r
  {
    var e := n / d;
    assert d * (q - e) == n % d - r;
    assert q - e >= 1 ==> d * (q - e) >= d;
    assert q - e <= -1 ==> d * (q - e) <= -d;
  }

  /** Framing and unframing are inverse: a buffer decodes to an id and payload exactly when it is their frame. */
  lemma FramingIsInverse(buffer: seq<Byte>, id: nat, payload: seq<Byte>)
    requires id < U32_LIMIT
    ensures DecodeWireFormat(buffer) == Ok((id, payload)) <==> buffer == Frame(id, payload)
  {
    if buffer == Frame(id, payload) {
      assert buffer[1..5] == ToBytes(id) && buffer[5..] == payload;
      BytesRoundTrip(id);
    }
    if DecodeWireFormat(buffer) == Ok((id, payload)) {
      NumberRoundTrip(buffer[1..5]);
      assert buffer == [buffer[0]] + buffer[1..5] + buffer[5..];
    }
  }

  /** Every buffer that is no frame is refused, for its length or its first byte. */
  lemma OthersRefused(buffer: seq<Byte>)
    ensures DecodeWireFormat(buffer).Err? <==>
            !exists id: nat, payload :: id < U32_LIMIT && buffer == Frame(id, payload)
  {
    if DecodeWireFormat(buffer).Ok? {
      var (id, payload) := DecodeWireFormat(buffer).value;
      FramingIsInverse(buffer, id, payload);
    } else {
      forall id: nat, payload: seq<Byte> | id < U32_LIMIT
        ensures buffer != Frame(id, payload)
      {
        FramingIsInverse(buffer, id, payload);
      }
    }
  }

  /** One byte string comes before another of the same length: they agree up to a place where it is smaller. */
  predicate Before(a: seq<Byte>, b: seq<Byte>) {
    |a| == |b| && exists k :: 0 <= k < |a| && a[k] < b[k] && a[..k] == b[..k]
  }

  lemma BeforeIsLess(a: seq<Byte>, b: seq<Byte>, k: nat)
    requires |a| == |b| == 4 && k < 4 && a[k] < b[k] && a[..k] == b[..k]
    ensures FromBytes(a) < FromBytes(b)
  {
    assert forall i :: 0 <= i < k ==> a[i] == a[..k][i] && b[i] == b[..k][i];
  }

  lemma SomeByteDiffers(a: seq<Byte>, b: seq<Byte>) returns (k: nat)
    requires |a| == |b| == 4 && a != b
    ensures k < 4 && a[k] != b[k] && a[..k] == b[..k]
  {
    k := if a[0] != b[0] then 0 else if a[1] != b[1] then 1 else if a[2] != b[2] then 2 else 3;
  }

  /** Most significant byte first: ids are ordered as their bytes are. */
  lemma BigEndian(m: nat, n: nat)
    requires m < U32_LIMIT && n < U32_LIMIT
    ensures m < n <==> Before(ToBytes(m), ToBytes(n))
  {
    var a, b := ToBytes(m), ToBytes(n);
    BytesRoundTrip(m);
    BytesRoundTrip(n);
    if a != b {
      var k := SomeByteDiffers(a, b);
      if a[k] < b[k] {
        BeforeIsLess(a, b, k);
      } else {
        BeforeIsLess(b, a, k);
      }
    }
    if k :| 0 <= k < |a| && a[k] < b[k] && a[..k] == b[..k] {
      BeforeIsLess(a, b, k);
    }
  }

  /** A frame is a zero byte, the four bytes of the id, and the payload as it is. */
  lemma FrameLayout(id: nat, payload: seq<Byte>)
    requires id < U32_LIMIT
    ensures
      var f := Frame(id, payload);
      |f| == 5 + |payload| && f[0] == 0 && f[1..5] == ToBytes(id) && f[5..] == payload
  {
  }

  class ConfluentRegistryClient {
    var nextSchemaId: nat
    var schemaCache: map<string, nat>

    function State(): Registry
      reads this
    {
      Registry(nextSchemaId, schemaCache)
    }

    constructor ()
      ensures State() == EMPTY
    {
      nextSchemaId, schemaCache := FIRST_ID, map[];
    }

    /** A known subject keeps its id for good; a new one takes the next id and nobody else's changes. */
    method RegisterSchema(subject: string) returns (id: nat)
      modifies this
      ensures subject in schemaCache && schemaCache[subject] == id
      ensures forall t :: t in old(schemaCache) ==> t in schemaCache && schemaCache[t] == old(schemaCache)[t]
      ensures subject in old(schemaCache) ==> State() == old(State())
      ensures subject !in old(schemaCache) ==> (State(), id) == Assign(old(State()), subject)
    {
      if subject in schemaCache {
        return schemaCache[subject];
      }
      id := nextSchemaId;
      nextSchemaId := (nextSchemaId + 1) % U32_LIMIT;
      schemaCache := schemaCache[subject := id];
    }

    method EncodeWireFormat(schemaId: nat, payload: seq<Byte>) returns (buffer: seq<Byte>)
      requires schemaId < U32_LIMIT
      ensures buffer == Frame(schemaId, payload)
      ensures DecodeWireFormat(buffer) == Ok((schemaId, payload))
    {
      buffer := [0];
      buffer := buffer + ToBytes(schemaId);
      buffer := buffer + payload;
      FramingIsInverse(buffer, schemaId, payload);
    }
  }
}
