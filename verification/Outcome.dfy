/** When a session succeeds and why it fails, in terms of its records, its limits and the names in use. */
module Outcome {
  import opened Wrappers
  import opened Manifests
  import opened StreamReader
  import opened Rotation
  import opened Session

  // ----- The conditions, on the records of the whole session

  predicate HeaderAt(rs: Records, i: nat) {
    Drop(rs, i).Record? && Drop(rs, i).event.Header?
  }

  /** No header record among the first `k`. */
  ghost predicate Headerless(rs: Records, k: nat) {
    forall i: nat {:trigger HeaderAt(rs, i)} :: i < k ==> !HeaderAt(rs, i)
  }

  /** None of the first `n` records stops the session: no `end` record, no shutdown, the session limit not reached. */
  ghost predicate ReadsPast(env: Env, rs: Records, n: nat) {
    && n <= Count(rs)
    && (forall i: nat {:trigger Drop(rs, i)} :: i < n ==> GoesOn(env, i + 1, Drop(rs, i)))
    && (n > 0 ==> |RawPrefix(rs, n)| < env.maxSessionBytes)
  }

  /** Reading stops behind the first `n` records at the latest. */
  predicate StopsBy(env: Env, rs: Records, n: nat) {
    && n <= Count(rs)
    && (Drop(rs, n) == EndRecords
        || (n > 0 && (!GoesOn(env, n, Drop(rs, n - 1)) || |RawPrefix(rs, n)| >= env.maxSessionBytes)))
  }

  /** So does the first part, which holds nothing but records. */
  predicate FirstPartStopsBy(env: Env, rs: Records, n: nat) {
    StopsBy(env, rs, n) || (0 < n <= Count(rs) && |RawPrefix(rs, n)| >= env.maxFileBytes)
  }

  /** The header that opens part `n`, made from this one, can be read back. */
  predicate Readable(env: Env, info: HeaderInfo, n: U32, link: Option<string>) {
    var bytes := env.codec.render(WithLink(info.raw, n, link)) + [NEWLINE];
    env.codec.isUtf8(bytes) && env.codec.parse(bytes).Some?
  }

  /** The only ground there is for each error. */
  ghost predicate Ground(env: Env, taken: set<string>, rs: Records, e: RunError) {
    match e
    case BadLimits => false
    case NameTaken(name) =>
      || (exists i: U32 :: name == PartName(env, i) && name in taken)
      || (name == PartName(env, 0xFFFF_FFFF) && 0x1_0000_0000 * env.maxFileBytes < env.maxSessionBytes)
    case Stream(e) =>
      || (exists n: nat :: ReadsPast(env, rs, n) && Drop(rs, n) == BadRecord(e))
      || (e == SecondHeader && exists h: nat, n: nat ::
            h < n && ReadsPast(env, rs, n) && HeaderAt(rs, h) && HeaderAt(rs, n))
      || (e == NoHeader && exists n: nat :: Headerless(rs, n) && FirstPartStopsBy(env, rs, n))
      || (e == SynthHeader && exists h: nat, n: nat, i: U32, link ::
            && h < n && i > 0 && ReadsPast(env, rs, n) && HeaderAt(rs, h)
            && !Readable(env, Drop(rs, h).event.info, i, link))
  }

  // ----- One part

  /** The loop failed at the `k`-th record, having passed those before it. */
  ghost predicate FailsAt(env: Env, st: LoopState, rs: Records, k: nat, e: RunError) {
    && k <= Count(rs)
    && (forall i: nat {:trigger Drop(rs, i)} :: i < k ==> GoesOn(env, st.read + i + 1, Drop(rs, i)))
    && (k > 0 ==> st.sessionBytes + |RawPrefix(rs, k)| < env.maxSessionBytes)
    && match Drop(rs, k)
       case EndRecords => false
       case BadRecord(why) => e == Stream(why)
       case Record(event, _, _) =>
         event.Header? && e == Stream(SecondHeader) && (st.header.Some? || !Headerless(rs, k))
  }

  lemma LaterHeader(rs: Records, k: nat)
    requires rs.Record? && (rs.event.Header? || !Headerless(rs.more, k))
    ensures !Headerless(rs, k + 1)
  {
    if rs.event.Header? {
      assert HeaderAt(rs, 0);
    } else {
      var i: nat :| i < k && HeaderAt(rs.more, i);
      assert HeaderAt(rs, i + 1);
    }
  }

  lemma {:induction false} LoopFails(env: Env, st: LoopState, rs: Records) returns (k: nat)
    requires Loop(env, st, rs).Err?
    ensures FailsAt(env, st, rs, k, Loop(env, st, rs).error)
    decreases rs
  {
    k := 0;
    if rs.Record? && Absorb(st, rs.event, rs.raw).Ok? {
      var now := Absorb(st, rs.event, rs.raw).value;
      var j := LoopFails(env, now, rs.more);
      k := j + 1;
      forall i: nat | i < k ensures GoesOn(env, st.read + i + 1, Drop(rs, i)) {
        if i > 0 {
          assert Drop(rs, i) == Drop(rs.more, i - 1) && st.read + i + 1 == now.read + (i - 1) + 1;
        }
      }
      assert Drop(rs, k) == Drop(rs.more, j);
      if st.header.None? && Drop(rs, k).Record? {
        LaterHeader(rs, j);
      }
    }
  }

  /** A part's header is the one it began with, or the only header record in it. */
  ghost predicate HeadedBy(st: LoopState, end: LoopState, rs: Records, k: nat) {
    if st.header.Some? then end.header == st.header && Headerless(rs, k)
    else if end.header.None? then Headerless(rs, k)
    else exists h: nat :: OnlyHeader(rs, k, h) && Drop(rs, h).event.info == end.header.value
  }

  ghost predicate OnlyHeader(rs: Records, k: nat, h: nat) {
    h < k && HeaderAt(rs, h) && forall i: nat {:trigger HeaderAt(rs, i)} :: i < k && i != h ==> !HeaderAt(rs, i)
  }

  lemma HeaderlessFront(rs: Records, k: nat)
    requires rs.Record? && Headerless(rs.more, k)
    ensures rs.event.Header? ==> OnlyHeader(rs, k + 1, 0)
    ensures !rs.event.Header? ==> Headerless(rs, k + 1)
  {
    forall i: nat | 0 < i < k + 1 ensures !HeaderAt(rs, i) {
      assert Drop(rs, i) == Drop(rs.more, i - 1) && !HeaderAt(rs.more, i - 1);
    }
  }

  lemma OnlyHeaderFront(rs: Records, k: nat, h: nat)
    requires rs.Record? && !rs.event.Header? && OnlyHeader(rs.more, k, h)
    ensures OnlyHeader(rs, k + 1, h + 1) && Drop(rs, h + 1) == Drop(rs.more, h)
  {
    forall i: nat | i < k + 1 && i != h + 1 ensures !HeaderAt(rs, i) {
      if i > 0 {
        assert Drop(rs, i) == Drop(rs.more, i - 1) && !HeaderAt(rs.more, i - 1);
      }
    }
  }

  lemma {:induction false} LoopHeads(env: Env, st: LoopState, rs: Records)
    requires Loop(env, st, rs).Ok?
    ensures var end := Loop(env, st, rs).value.state;
      st.read <= end.read && HeadedBy(st, end, rs, end.read - st.read)
    decreases rs
  {
    if rs.Record? {
      var now := Absorb(st, rs.event, rs.raw).value;
      if Halt(env, now, rs.event).None? {
        LoopHeads(env, now, rs.more);
        MoreHeads(st, now, Loop(env, now, rs.more).value.state, rs);
      } else {
        assert Headerless(rs.more, 0);
        HeaderlessFront(rs, 0);
      }
    }
  }

  lemma MoreHeads(st: LoopState, now: LoopState, end: LoopState, rs: Records)
    requires rs.Record? && Absorb(st, rs.event, rs.raw) == Ok(now) && now.read <= end.read
    requires HeadedBy(now, end, rs.more, end.read - now.read)
    ensures HeadedBy(st, end, rs, end.read - st.read)
  {
    var k := end.read - now.read;
    if Headerless(rs.more, k) {
      HeaderlessFront(rs, k);
    } else {
      var h: nat :| OnlyHeader(rs.more, k, h) && Drop(rs.more, h).event.info == end.header.value;
      OnlyHeaderFront(rs, k, h);
    }
  }

  // ----- Where the per-part loop stands

  /** The parts so far, `count` of them, passed the first `c.read` records, and took these names. */
  ghost predicate StandsAt(env: Env, taken: set<string>, all: Records, c: Cursor, rs: Records, count: nat) {
    && ReadsPast(env, all, c.read) && rs == Drop(all, c.read) && Count(rs) == Count(all) - c.read
    && |RawPrefix(all, c.read)| <= c.sessionBytes && count * env.maxFileBytes <= c.sessionBytes
    && (count > 0 ==> c.sessionBytes < env.maxSessionBytes)
    && c.number == (if count <= 0xFFFF_FFFF then count else 0xFFFF_FFFF)
    && (forall name {:trigger Used(env, taken, count, name)} :: name in c.taken ==> Used(env, taken, count, name))
    && (count == 0 ==> c == Start(taken))
    && (count > 0 ==> FirstHeader(all, c))
  }

  ghost predicate Used(env: Env, taken: set<string>, count: nat, name: string) {
    name in taken || exists i: U32 :: i < count && name == PartName(env, i)
  }

  /** The header kept for later parts is that of a record that was read. */
  ghost predicate FirstHeader(all: Records, c: Cursor) {
    c.first.Some? && exists h: nat :: h < c.read && HeaderAt(all, h) && Drop(all, h).event.info == c.first.value
  }

  lemma NameGround(env: Env, taken: set<string>, all: Records, c: Cursor, rs: Records, count: nat)
    requires StandsAt(env, taken, all, c, rs, count) && PartName(env, c.number) in c.taken
    ensures Ground(env, taken, all, NameTaken(PartName(env, c.number)))
  {
    var name := PartName(env, c.number);
    assert Used(env, taken, count, name);
    if name !in taken {
      var i: U32 :| i < count && name == PartName(env, i);
      PartNamesTell(env, i, c.number);
      assert count >= 0x1_0000_0000;
      Session.ProductMonotone(0x1_0000_0000, count, env.maxFileBytes);
    }
  }

  lemma SynthGround(env: Env, taken: set<string>, all: Records, c: Cursor, rs: Records, count: nat)
    requires StandsAt(env, taken, all, c, rs, count)
    requires Begin(env, c.read, c.sessionBytes, SyntheticHeader(env, c)).Err?
    ensures var e := Begin(env, c.read, c.sessionBytes, SyntheticHeader(env, c)).error; Ground(env, taken, all, e)
  {
    var h: nat :| h < c.read && HeaderAt(all, h) && Drop(all, h).event.info == c.first.value;
    assert !Readable(env, Drop(all, h).event.info, c.number, c.link);
  }

  /** Passing `k` records behind the first `n` is passing the first `n + k`. */
  lemma PassedOn(env: Env, all: Records, n: nat, rs: Records, k: nat, sessionBytes: nat)
    requires ReadsPast(env, all, n) && rs == Drop(all, n) && k <= Count(rs) == Count(all) - n
    requires forall i: nat {:trigger Drop(rs, i)} :: i < k ==> GoesOn(env, n + i + 1, Drop(rs, i))
    requires |RawPrefix(all, n)| <= sessionBytes
    requires k > 0 ==> sessionBytes + |RawPrefix(rs, k)| < env.maxSessionBytes
    ensures ReadsPast(env, all, n + k) && Drop(all, n + k) == Drop(rs, k)
    ensures |RawPrefix(all, n + k)| <= sessionBytes + |RawPrefix(rs, k)|
  {
    PrefixSplit(all, n, k);
    DropSplit(all, n, k);
    forall i: nat | i < n + k ensures GoesOn(env, i + 1, Drop(all, i)) {
      if i >= n {
        DropSplit(all, n, i - n);
        assert GoesOn(env, n + (i - n) + 1, Drop(rs, i - n));
      }
    }
  }

  lemma HeaderFurther(all: Records, n: nat, rs: Records, h: nat)
    requires rs == Drop(all, n) && HeaderAt(rs, h)
    ensures HeaderAt(all, n + h) && Drop(all, n + h) == Drop(rs, h)
  {
    DropSplit(all, n, h);
  }

  lemma LoopGround(env: Env, taken: set<string>, all: Records, c: Cursor, rs: Records, count: nat, st: LoopState)
    requires StandsAt(env, taken, all, c, rs, count)
    requires Fresh(st, c.read, c.sessionBytes, st.written) && (st.header.Some? ==> count > 0)
    requires Loop(env, st, rs).Err?
    ensures Ground(env, taken, all, Loop(env, st, rs).error)
  {
    var k := LoopFails(env, st, rs);
    PassedOn(env, all, c.read, rs, k, c.sessionBytes);
    var n := c.read + k;
    if Drop(rs, k).Record? {
      assert HeaderAt(all, n);
      if st.header.Some? {
        var h: nat :| h < c.read && HeaderAt(all, h);
        assert h < n;
      } else {
        var h: nat :| h < k && HeaderAt(rs, h);
        HeaderFurther(all, c.read, rs, h);
        assert c.read + h < n;
      }
    }
  }

  lemma FreshBegin(env: Env, c: Cursor, st: LoopState)
    requires Begin(env, c.read, c.sessionBytes, SyntheticHeader(env, c)) == Ok(st)
    ensures Fresh(st, c.read, c.sessionBytes, st.written)
    ensures st.header.Some? <==> c.number != 0 && c.first.Some?
    ensures st.header.None? ==> st.written == []
  {
    BeginsFresh(env, c.read, c.sessionBytes, SyntheticHeader(env, c), st);
  }

  /** A part without a header is the first one, and ended where it did for its own reason. */
  lemma NoHeaderGround(env: Env, taken: set<string>, all: Records, st: LoopState)
    requires Begin(env, 0, 0, None) == Ok(st) && Loop(env, st, all).Ok? && Loop(env, st, all).value.state.header.None?
    ensures Ground(env, taken, all, Stream(NoHeader))
  {
    var end := Loop(env, st, all).value.state;
    BeginsFresh(env, 0, 0, None, st);
    LoopIsSound(env, st, all);
    LoopHeads(env, st, all);
    assert Headerless(all, end.read) && Drop(all, end.read - 0) == Loop(env, st, all).value.rest;
    assert FirstPartStopsBy(env, all, end.read);
  }

  lemma PartGround(env: Env, taken: set<string>, all: Records, c: Cursor, rs: Records, count: nat, e: RunError)
    requires StandsAt(env, taken, all, c, rs, count) && OnePart(env, c, rs) == Err(e)
    ensures Ground(env, taken, all, e)
  {
    if PartName(env, c.number) in c.taken {
      NameGround(env, taken, all, c, rs, count);
    } else {
      var begun := Begin(env, c.read, c.sessionBytes, SyntheticHeader(env, c));
      if begun.Err? {
        SynthGround(env, taken, all, c, rs, count);
      } else {
        FreshBegin(env, c, begun.value);
        if Loop(env, begun.value, rs).Err? {
          LoopGround(env, taken, all, c, rs, count, begun.value);
        } else {
          LoopHeads(env, begun.value, rs);
          NoHeaderGround(env, taken, all, begun.value);
        }
      }
    }
  }

  lemma UsedOneMore(env: Env, taken: set<string>, count: nat, c: Cursor)
    requires forall name {:trigger Used(env, taken, count, name)} :: name in c.taken ==> Used(env, taken, count, name)
    requires c.number <= count
    ensures forall name {:trigger Used(env, taken, count + 1, name)} ::
      name in c.taken + {PartName(env, c.number)} ==> Used(env, taken, count + 1, name)
  {
    forall name | name in c.taken + {PartName(env, c.number)} ensures Used(env, taken, count + 1, name) {
      if name in c.taken {
        assert Used(env, taken, count, name);
      }
    }
  }

  /** The header a part began or ended with, for the parts to come. */
  lemma HeaderKept(env: Env, taken: set<string>, all: Records, c: Cursor, rs: Records, count: nat)
    requires StandsAt(env, taken, all, c, rs, count) && OnePart(env, c, rs).Ok?
    ensures var end := OnePart(env, c, rs).value.state;
      c.read <= end.read && FirstHeader(all, Advance(env, c, end))
  {
    var st, end := Begin(env, c.read, c.sessionBytes, SyntheticHeader(env, c)).value, OnePart(env, c, rs).value.state;
    FreshBegin(env, c, st);
    LoopHeads(env, st, rs);
    if count == 0 {
      var h: nat :| OnlyHeader(rs, end.read, h) && Drop(rs, h).event.info == end.header.value;
    } else {
      var h: nat :| h < c.read && HeaderAt(all, h) && Drop(all, h).event.info == c.first.value;
      assert h < end.read;
    }
  }

  lemma PartStands(env: Env, taken: set<string>, all: Records, c: Cursor, rs: Records, count: nat)
    requires StandsAt(env, taken, all, c, rs, count)
    requires OnePart(env, c, rs).Ok? && OnePart(env, c, rs).value.state.next.Rotated?
    ensures var Stopped(end, rest) := OnePart(env, c, rs).value;
      StandsAt(env, taken, all, Advance(env, c, end), rest, count + 1)
  {
    var Stopped(end, rest) := OnePart(env, c, rs).value;
    TurnIsSound(env, c, rs);
    HeaderKept(env, taken, all, c, rs, count);
    RotatedPasses(env, all, Turn(c, SyntheticHeader(env, c), rs, end, rest));
    UsedOneMore(env, taken, count, c);
    Session.OneMore(count, env.maxFileBytes);
  }

  /** What a rotated turn has read gives no reason to stop, and is a full part. */
  lemma RotatedTurn(env: Env, t: Turn)
    requires SoundTurn(env, t) && t.end.next.Rotated?
    ensures var k := t.end.read - t.c.read;
      && 0 < k <= Count(t.rs) && t.rest == Drop(t.rs, k)
      && (forall i: nat {:trigger Drop(t.rs, i)} :: i < k ==> GoesOn(env, t.c.read + i + 1, Drop(t.rs, i)))
      && t.c.sessionBytes + |RawPrefix(t.rs, k)| <= t.end.sessionBytes < env.maxSessionBytes
      && t.end.sessionBytes >= t.c.sessionBytes + env.maxFileBytes
  {
    var k := t.end.read - t.c.read;
    forall i: nat | i < k ensures GoesOn(env, t.c.read + i + 1, Drop(t.rs, i)) {
      assert i + 1 == k ==> t.c.read + i + 1 == t.end.read;
    }
  }

  lemma RotatedPasses(env: Env, all: Records, t: Turn)
    requires ReadsPast(env, all, t.c.read) && t.rs == Drop(all, t.c.read) && Count(t.rs) == Count(all) - t.c.read
    requires |RawPrefix(all, t.c.read)| <= t.c.sessionBytes
    requires SoundTurn(env, t) && t.end.next.Rotated?
    ensures ReadsPast(env, all, t.end.read) && t.rest == Drop(all, t.end.read)
    ensures Count(t.rest) == Count(all) - t.end.read
    ensures |RawPrefix(all, t.end.read)| <= t.end.sessionBytes < env.maxSessionBytes
    ensures t.end.sessionBytes >= t.c.sessionBytes + env.maxFileBytes
  {
    var k := t.end.read - t.c.read;
    RotatedTurn(env, t);
    PassedOn(env, all, t.c.read, t.rs, k, t.c.sessionBytes);
    DropSplit(t.rs, k, 0);
  }

  lemma RunGoesOn(env: Env, c: Cursor, rs: Records, e: RunError)
    requires Run(env, c, rs) == Err(e) && OnePart(env, c, rs).Ok?
    ensures var Stopped(end, rest) := OnePart(env, c, rs).value;
      end.next.Rotated? && Count(rest) < Count(rs) && Run(env, Advance(env, c, end), rest) == Err(e)
  {
    OnePartShape(env, c, rs);
  }

  lemma FirstPartFails(env: Env, c: Cursor, rs: Records, e: RunError)
    requires Run(env, c, rs) == Err(e) && OnePart(env, c, rs).Err?
    ensures OnePart(env, c, rs) == Err(e)
  {}

  /** The loop may stand at this cursor, behind some number of parts. */
  ghost predicate MayStand(env: Env, taken: set<string>, all: Records, c: Cursor, rs: Records) {
    exists count: nat :: StandsAt(env, taken, all, c, rs, count)
  }

  lemma NextPart(env: Env, taken: set<string>, all: Records, c: Cursor, rs: Records, e: RunError)
      returns (next: Cursor, rest: Records)
    requires MayStand(env, taken, all, c, rs) && Run(env, c, rs) == Err(e) && OnePart(env, c, rs).Ok?
    ensures MayStand(env, taken, all, next, rest) && Run(env, next, rest) == Err(e) && Count(rest) < Count(rs)
  {
    next, rest := Advance(env, c, OnePart(env, c, rs).value.state), OnePart(env, c, rs).value.rest;
    RunGoesOn(env, c, rs, e);
    var count: nat :| StandsAt(env, taken, all, c, rs, count);
    PartStands(env, taken, all, c, rs, count);
  }

  lemma FailedPart(env: Env, taken: set<string>, all: Records, c: Cursor, rs: Records, e: RunError)
    requires MayStand(env, taken, all, c, rs) && OnePart(env, c, rs) == Err(e)
    ensures Ground(env, taken, all, e)
  {
    var count: nat :| StandsAt(env, taken, all, c, rs, count);
    PartGround(env, taken, all, c, rs, count, e);
  }

  /** Some part failed with this error, at a cursor where the loop may stand. */
  lemma {:induction false} RunFails(env: Env, taken: set<string>, all: Records, c: Cursor, rs: Records, e: RunError)
      returns (last: Cursor, left: Records)
    requires MayStand(env, taken, all, c, rs) && Run(env, c, rs) == Err(e)
    ensures MayStand(env, taken, all, last, left) && OnePart(env, last, left) == Err(e)
    decreases Count(rs)
  {
    if OnePart(env, c, rs).Err? {
      FirstPartFails(env, c, rs, e);
      last, left := c, rs;
    } else {
      var next, rest := NextPart(env, taken, all, c, rs, e);
      last, left := RunFails(env, taken, all, next, rest, e);
    }
  }

  // ----- The theorems

  lemma StartStands(env: Env, taken: set<string>, rs: Records)
    ensures StandsAt(env, taken, rs, Start(taken), rs, 0)
  {
    forall name | name in taken ensures Used(env, taken, 0, name) {}
  }

  /** Every error has its own ground: a name in use, a bad record or a second header that was reached, and so on. */
  lemma SessionFails(env: Env, taken: set<string>, rs: Records, e: RunError)
    requires Run(env, Start(taken), rs) == Err(e)
    ensures Ground(env, taken, rs, e)
  {
    StartStands(env, taken, rs);
    var c, left := RunFails(env, taken, rs, Start(taken), rs, e);
    FailedPart(env, taken, rs, c, left, e);
  }

  /** The records that are read: the header stands in the first part, alone, and reading stops by the `n`-th record. */
  ghost predicate WellRecorded(env: Env, rs: Records, n: nat, h: nat) {
    && StopsBy(env, rs, n) && OnlyHeader(rs, n, h)
    && forall i: nat :: i <= h ==> !FirstPartStopsBy(env, rs, i)
  }

  lemma {:induction false} PrefixGrows(rs: Records, j: nat, k: nat)
    requires j <= k
    ensures |RawPrefix(rs, j)| <= |RawPrefix(rs, k)|
  {
    PrefixSplit(rs, j, k - j);
  }

  /** What stops a session is not passed. */
  lemma StopIsNotPassed(env: Env, rs: Records, n: nat, m: nat)
    requires StopsBy(env, rs, n) && ReadsPast(env, rs, m) && n <= m
    ensures m == n && Drop(rs, n) == EndRecords
  {
    PrefixGrows(rs, n, m);
    if n > 0 {
      assert GoesOn(env, n - 1 + 1, Drop(rs, n - 1));
    }
    DropSplit(rs, n, m - n);
  }

  lemma BadIsNotReached(env: Env, rs: Records, n: nat, m: nat)
    requires StopsBy(env, rs, n) && ReadsPast(env, rs, m)
    ensures Drop(rs, m).BadRecord? ==> m < n
    ensures Drop(rs, m).Record? ==> m < n
  {
    if n <= m {
      StopIsNotPassed(env, rs, n, m);
    }
  }

  lemma HeaderIsOnly(env: Env, rs: Records, n: nat, h: nat, i: nat, m: nat)
    requires WellRecorded(env, rs, n, h) && ReadsPast(env, rs, m) && HeaderAt(rs, i) && i < m
    ensures i == h
  {
    if n <= m {
      StopIsNotPassed(env, rs, n, m);
    }
    assert i < n ==> (i == h || !HeaderAt(rs, i));
  }

  lemma NothingBad(env: Env, rs: Records, n: nat, h: nat, e: StreamError, m: nat)
    requires WellRecorded(env, rs, n, h) && ReadsPast(env, rs, m)
    ensures Drop(rs, m) != BadRecord(e)
  {
    BadIsNotReached(env, rs, n, m);
    if m < n {
      RecordsBefore(rs, n, m);
    }
  }

  lemma {:induction false} RecordsBefore(rs: Records, n: nat, m: nat)
    requires m < n <= Count(rs)
    ensures Drop(rs, m).Record?
  {
    if m > 0 {
      RecordsBefore(rs.more, n - 1, m - 1);
    }
  }

  lemma NoSecondHeader(env: Env, rs: Records, n: nat, h: nat, i: nat, m: nat)
    requires WellRecorded(env, rs, n, h) && ReadsPast(env, rs, m) && HeaderAt(rs, i) && i < m
    ensures !HeaderAt(rs, m)
  {
    HeaderIsOnly(env, rs, n, h, i, m);
    BadIsNotReached(env, rs, n, m);
    assert m < n ==> !HeaderAt(rs, m);
  }

  lemma FirstPartHasHeader(env: Env, rs: Records, n: nat, h: nat, m: nat)
    requires WellRecorded(env, rs, n, h) && Headerless(rs, m)
    ensures !FirstPartStopsBy(env, rs, m)
  {
    assert h < m ==> !HeaderAt(rs, h);
  }

  /** None of the names the session can use is in use, and its limits do not let it run out of part numbers. */
  ghost predicate NamesFree(env: Env, taken: set<string>) {
    && (forall i: U32 {:trigger PartName(env, i)} :: PartName(env, i) !in taken)
    && env.maxSessionBytes <= 0x1_0000_0000 * env.maxFileBytes
  }

  /** Whatever the number and the link, the header that opens a later part can be read back. */
  ghost predicate HeadersReadable(env: Env, info: HeaderInfo) {
    forall i: U32, link {:trigger Readable(env, info, i, link)} :: i > 0 ==> Readable(env, info, i, link)
  }

  lemma NoGround(env: Env, taken: set<string>, rs: Records, n: nat, h: nat, e: RunError)
    requires NamesFree(env, taken) && WellRecorded(env, rs, n, h) && HeadersReadable(env, Drop(rs, h).event.info)
    ensures !Ground(env, taken, rs, e)
  {
    if e.Stream? {
      forall m: nat | ReadsPast(env, rs, m) ensures Drop(rs, m) != BadRecord(e.e) {
        NothingBad(env, rs, n, h, e.e, m);
      }
      forall i: nat, m: nat | i < m && ReadsPast(env, rs, m) && HeaderAt(rs, i) ensures i == h && !HeaderAt(rs, m) {
        HeaderIsOnly(env, rs, n, h, i, m);
        NoSecondHeader(env, rs, n, h, i, m);
      }
      forall m: nat | Headerless(rs, m) ensures !FirstPartStopsBy(env, rs, m) {
        FirstPartHasHeader(env, rs, n, h, m);
      }
    }
  }

  /**
   A session succeeds: its names are free, one header record stands among the records read, in the first part,
   no bad record comes before reading stops, and the headers made from it can be read back.
   */
  lemma SessionSucceeds(env: Env, taken: set<string>, rs: Records, n: nat, h: nat)
    requires NamesFree(env, taken) && WellRecorded(env, rs, n, h) && HeadersReadable(env, Drop(rs, h).event.info)
    ensures Run(env, Start(taken), rs).Ok?
  {
    var run := Run(env, Start(taken), rs);
    if run.Err? {
      SessionFails(env, taken, rs, run.error);
      NoGround(env, taken, rs, n, h, run.error);
      assert false;
    }
  }

  // ----- What success needs

  /** A part begins with a readable header and holds no other, or holds exactly one header record. */
  ghost predicate HeadedTurn(env: Env, t: Turn) {
    && t.c.read <= t.end.read && t.end.header.Some?
    && var k := t.end.read - t.c.read;
    if t.synth.Some? then
      env.codec.isUtf8(t.synth.value) && env.codec.parse(t.synth.value).Some? && Headerless(t.rs, k)
    else exists h: nat :: OnlyHeader(t.rs, k, h) && Drop(t.rs, h).event.info == t.end.header.value
  }

  lemma BeginReads(env: Env, read: nat, sessionBytes: nat, synth: Option<Bytes>, st: LoopState)
    requires Begin(env, read, sessionBytes, synth) == Ok(st)
    ensures st.read == read && (st.header.Some? <==> synth.Some?)
    ensures synth.Some? ==> env.codec.isUtf8(synth.value) && env.codec.parse(synth.value).Some?
  {}

  lemma TurnHeads(env: Env, c: Cursor, rs: Records)
    requires OnePart(env, c, rs).Ok?
    ensures var Stopped(end, rest) := OnePart(env, c, rs).value;
      HeadedTurn(env, Turn(c, SyntheticHeader(env, c), rs, end, rest))
  {
    var synth := SyntheticHeader(env, c);
    var st := Begin(env, c.read, c.sessionBytes, synth).value;
    BeginReads(env, c.read, c.sessionBytes, synth, st);
    LoopHeads(env, st, rs);
  }

  lemma RunSplits(env: Env, c: Cursor, rs: Records, ts: seq<Turn>)
    requires Run(env, c, rs) == Ok(ts)
    ensures OnePart(env, c, rs).Ok? && ts != []
    ensures var Stopped(end, rest) := OnePart(env, c, rs).value;
      && ts[0] == Turn(c, SyntheticHeader(env, c), rs, end, rest)
      && (|ts| > 1 ==> Count(rest) < Count(rs) && Run(env, Advance(env, c, end), rest) == Ok(ts[1..]))
  {
    OnePartShape(env, c, rs);
  }

  lemma RunRest(env: Env, c: Cursor, rs: Records, ts: seq<Turn>) returns (next: Cursor, rest: Records)
    requires Run(env, c, rs) == Ok(ts) && |ts| > 1
    ensures Run(env, next, rest) == Ok(ts[1..])
  {
    RunSplits(env, c, rs, ts);
    next, rest := Advance(env, c, OnePart(env, c, rs).value.state), OnePart(env, c, rs).value.rest;
  }

  /** Every turn of a run is a part. */
  lemma {:induction false} RunParts(env: Env, c: Cursor, rs: Records, ts: seq<Turn>, i: nat)
      returns (at: Cursor, left: Records)
    requires Run(env, c, rs) == Ok(ts) && i < |ts|
    ensures OnePart(env, at, left).Ok?
    ensures ts[i] == Turn(at, SyntheticHeader(env, at), left, OnePart(env, at, left).value.state,
                          OnePart(env, at, left).value.rest)
    decreases i
  {
    if i == 0 {
      RunSplits(env, c, rs, ts);
      at, left := c, rs;
    } else {
      var next, rest := RunRest(env, c, rs, ts);
      at, left := RunParts(env, next, rest, ts[1..], i - 1);
    }
  }

  lemma RunHeads(env: Env, c: Cursor, rs: Records, ts: seq<Turn>, i: nat)
    requires Run(env, c, rs) == Ok(ts) && i < |ts|
    ensures HeadedTurn(env, ts[i])
  {
    var at, left := RunParts(env, c, rs, ts, i);
    TurnHeads(env, at, left);
  }

  lemma NoMoreHeaders(rs: Records, j: nat, k: nat, h: nat)
    requires OnlyHeader(rs, j, h) && Headerless(Drop(rs, j), k)
    ensures OnlyHeader(rs, j + k, h)
  {
    forall i: nat | i < j + k && i != h ensures !HeaderAt(rs, i) {
      if i >= j {
        DropSplit(rs, j, i - j);
        assert !HeaderAt(Drop(rs, j), i - j);
      }
    }
  }

  lemma {:induction false} OneHeaderInAll(env: Env, ts: seq<Turn>, n: nat, h: nat)
    requires Stretches(ts) && 0 < n <= |ts| && ts[0].c.read == 0
    requires forall i {:trigger ts[i]} :: 0 <= i < |ts| ==> HeadedTurn(env, ts[i]) && (i > 0 ==> ts[i].synth.Some?)
    requires OnlyHeader(ts[0].rs, ts[0].end.read, h)
    ensures OnlyHeader(ts[0].rs, ts[n - 1].end.read, h)
  {
    if n > 1 {
      OneHeaderInAll(env, ts, n - 1, h);
      StretchesRead(ts, n - 1);
      assert Continues(ts[n - 2], ts[n - 1]) && HeadedTurn(env, ts[n - 1]);
      NoMoreHeaders(ts[0].rs, ts[n - 2].end.read, ts[n - 1].end.read - ts[n - 1].c.read, h);
    }
  }

  lemma {:induction false} TakenStays(env: Env, ts: seq<Turn>, taken: set<string>, i: nat)
    requires i < |ts| && ts[0].c.taken == taken
    requires forall j :: 0 < j < |ts| ==> TurnFollows(env, Base(ts[0]), ts[j - 1], ts[j])
    ensures taken <= ts[i].c.taken
  {
    if i > 0 {
      TakenStays(env, ts, taken, i - 1);
      assert TurnFollows(env, Base(ts[0]), ts[i - 1], ts[i]);
    }
  }

  /** What a part of a successful session shows: its name was free, and its header was read back. */
  ghost predicate Admitted(env: Env, taken: set<string>, ts: seq<Turn>, i: nat)
    requires i < |ts| && ts[0].end.header.Some?
  {
    && ts[i].c.number == i && PartName(env, i) !in taken
    && (i > 0 ==> Readable(env, ts[0].end.header.value, i, env.manifest(i - 1)))
  }

  lemma PartAdmitted(env: Env, taken: set<string>, rs: Records, ts: seq<Turn>, i: nat)
    requires Run(env, Start(taken), rs) == Ok(ts) && i < |ts|
    ensures ts[0].end.header.Some? && Admitted(env, taken, ts, i)
    ensures HeadedTurn(env, ts[i]) && (i > 0 ==> ts[i].synth.Some?) && (i == 0 ==> ts[i].synth.None?)
  {
    RunTurns(env, Start(taken), rs);
    RunFollows(env, ts);
    RunSound(env, ts, i);
    TakenStays(env, ts, taken, i);
    RunHeads(env, Start(taken), rs, ts, i);
    SessionLinks(env, taken, rs);
    assert PartOf(env, ts[i]).number == i;
    if i > 0 {
      assert PartOf(env, ts[i - 1]).link == env.manifest(ts[i - 1].c.number) && PartOf(env, ts[i - 1]).number == i - 1;
    }
  }

  /**
   What success shows: among all records read there is one header, in the first part; it is the header kept for
   the session. Every part's name was free, and every later part's header was read back.
   */
  lemma SessionNeeds(env: Env, taken: set<string>, rs: Records, ts: seq<Turn>)
    requires Run(env, Start(taken), rs) == Ok(ts)
    ensures ts != [] && ts[0].end.header.Some?
    ensures exists h: nat ::
      && OnlyHeader(rs, ts[|ts| - 1].end.read, h) && h < ts[0].end.read
      && Drop(rs, h).event.info == ts[0].end.header.value
    ensures forall i {:trigger ts[i]} :: 0 <= i < |ts| ==> Admitted(env, taken, ts, i)
  {
    RunTurns(env, Start(taken), rs);
    RunStretches(env, ts);
    forall i | 0 <= i < |ts|
      ensures ts[0].end.header.Some? && Admitted(env, taken, ts, i)
      ensures HeadedTurn(env, ts[i]) && (i > 0 ==> ts[i].synth.Some?) && (i == 0 ==> ts[i].synth.None?)
    {
      PartAdmitted(env, taken, rs, ts, i);
    }
    assert HeadedTurn(env, ts[0]) && ts[0].synth.None?;
    var h: nat :| OnlyHeader(rs, ts[0].end.read, h) && Drop(rs, h).event.info == ts[0].end.header.value;
    OneHeaderInAll(env, ts, |ts|, h);
  }
}
