/** Length-prefixed messages on a byte stream without boundaries. */
module Framing {
  import opened BigEndian

  type Bytes = seq<byte>

  function Frame(payload: Bytes): Bytes
  {
    Put(|payload|, 4) + payload
  }

  function Frames(payloads: seq<Bytes>): Bytes
  {
    if payloads == [] then [] else Frame(payloads[0]) + Frames(payloads[1..])
  }

  /**
   * What a buffer holds: whole messages, a rest without one, and whether the rest starts with a length
   * over the cap.
   */
  datatype Scan = Scan(payloads: seq<Bytes>, rest: Bytes, bad: bool)

  datatype Front = Incomplete | TooLong | Whole(payload: Bytes, rest: Bytes)

  /** One turn of the de-framing loop. */
  function First(buf: Bytes, cap: nat): (f: Front)
    ensures f.Whole? ==> |f.rest| < |buf|
  {
    if |buf| < 4 then Incomplete
    else
      var len := Get(buf[..4]);
      if len > cap then TooLong
      else if |buf| < 4 + len then Incomplete
      else Whole(buf[4..4 + len], buf[4 + len..])
  }

  function Deframe(buf: Bytes, cap: nat): Scan
    decreases |buf|
  {
    match First(buf, cap)
    case Incomplete => Scan([], buf, false)
    case TooLong => Scan([], buf, true)
    case Whole(payload, rest) => var s := Deframe(rest, cap); s.(payloads := [payload] + s.payloads)
  }

  // ---- One message ----

  lemma FirstOfFrame(payload: Bytes, more: Bytes, cap: nat)
    requires |payload| <= cap < Pow256(4)
    ensures First(Frame(payload) + more, cap) == Whole(payload, more)
  {
    var buf := Frame(payload) + more;
    assert buf[..4] == Put(|payload|, 4);
    GetPut(|payload|, 4);
    assert buf[4..4 + |payload|] == payload && buf[4 + |payload|..] == more;
  }

  lemma FirstIsFrame(buf: Bytes, cap: nat)
    requires First(buf, cap).Whole?
    ensures Frame(First(buf, cap).payload) + First(buf, cap).rest == buf
    ensures |First(buf, cap).payload| <= cap
  {
    var len := Get(buf[..4]);
    PutGet(buf[..4]);
    assert buf == buf[..4] + buf[4..4 + len] + buf[4 + len..];
  }

  lemma FirstGrows(buf: Bytes, more: Bytes, cap: nat)
    requires !First(buf, cap).Incomplete?
    ensures First(buf, cap).TooLong? ==> First(buf + more, cap).TooLong?
    ensures First(buf, cap).Whole?
            ==> First(buf + more, cap) == Whole(First(buf, cap).payload, First(buf, cap).rest + more)
  {
    assert (buf + more)[..4] == buf[..4];
    if First(buf, cap).Whole? {
      var len := Get(buf[..4]);
      assert (buf + more)[4..4 + len] == buf[4..4 + len];
      assert (buf + more)[4 + len..] == buf[4 + len..] + more;
    }
  }

  // ---- A stream ----

  /** De-framing only cuts: the messages it found, framed again, and the rest are the buffer. */
  lemma {:induction false} DeframeCuts(buf: Bytes, cap: nat)
    ensures Frames(Deframe(buf, cap).payloads) + Deframe(buf, cap).rest == buf
    decreases |buf|
  {
    var f := First(buf, cap);
    if f.Whole? {
      DeframeCuts(f.rest, cap);
      FirstIsFrame(buf, cap);
      var s := Deframe(f.rest, cap);
      assert ([f.payload] + s.payloads)[1..] == s.payloads;
      assert Frame(f.payload) + (Frames(s.payloads) + s.rest) == Frame(f.payload) + Frames(s.payloads) + s.rest;
    }
  }

  /** It finds exactly what was framed, and leaves nothing. */
  lemma {:induction false} RoundTrip(payloads: seq<Bytes>, cap: nat)
    requires cap < Pow256(4) && forall i :: 0 <= i < |payloads| ==> |payloads[i]| <= cap
    ensures Deframe(Frames(payloads), cap) == Scan(payloads, [], false)
  {
    if payloads != [] {
      RoundTrip(payloads[1..], cap);
      FirstOfFrame(payloads[0], Frames(payloads[1..]), cap);
      assert payloads == [payloads[0]] + payloads[1..];
    }
  }

  function Joined(s: Scan, t: Scan): Scan
  {
    Scan(s.payloads + t.payloads, t.rest, t.bad)
  }

  lemma DeframeWhole(buf: Bytes, cap: nat, payload: Bytes, rest: Bytes)
    requires First(buf, cap) == Whole(payload, rest)
    ensures Deframe(buf, cap) == Joined(Scan([payload], [], false), Deframe(rest, cap))
  {
  }

  lemma JoinedAssociates(a: Scan, b: Scan, c: Scan)
    ensures Joined(a, Joined(b, c)) == Joined(Joined(a, b), c)
  {
    assert a.payloads + (b.payloads + c.payloads) == a.payloads + b.payloads + c.payloads;
  }

  /** Where the stream is cut does not matter: the rest of one scan is taken up by the next. */
  lemma {:induction false} DeframeResumes(buf: Bytes, more: Bytes, cap: nat)
    requires !Deframe(buf, cap).bad
    ensures Deframe(buf + more, cap) == Joined(Deframe(buf, cap), Deframe(Deframe(buf, cap).rest + more, cap))
    decreases |buf|
  {
    var f := First(buf, cap);
    if f.Whole? {
      DeframeWhole(buf, cap, f.payload, f.rest);
      DeframeResumes(f.rest, more, cap);
      ResumeStep(buf, more, cap, f.payload, f.rest);
    }
  }

  lemma ResumeStep(buf: Bytes, more: Bytes, cap: nat, payload: Bytes, rest: Bytes)
    requires First(buf, cap) == Whole(payload, rest)
    requires Deframe(rest + more, cap) == Joined(Deframe(rest, cap), Deframe(Deframe(rest, cap).rest + more, cap))
    ensures Deframe(buf + more, cap) == Joined(Deframe(buf, cap), Deframe(Deframe(buf, cap).rest + more, cap))
  {
    FirstGrows(buf, more, cap);
    DeframeWhole(buf, cap, payload, rest);
    DeframeWhole(buf + more, cap, payload, rest + more);
    JoinedAssociates(Scan([payload], [], false), Deframe(rest, cap), Deframe(Deframe(rest, cap).rest + more, cap));
  }

  lemma FramesSnoc(payloads: seq<Bytes>, last: Bytes)
    ensures Frames(payloads + [last]) == Frames(payloads) + Frame(last)
  {
    FramesSplit(payloads, [last]);
    assert [last][1..] == [] && Frames([last]) == Frame(last) + [];
  }

  lemma {:induction false} FramesSplit(a: seq<Bytes>, b: seq<Bytes>)
    ensures Frames(a + b) == Frames(a) + Frames(b)
  {
    if a == [] {
      assert a + b == b;
    } else {
      assert (a + b)[1..] == a[1..] + b;
      FramesSplit(a[1..], b);
      assert Frame(a[0]) + (Frames(a[1..]) + Frames(b)) == Frame(a[0]) + Frames(a[1..]) + Frames(b);
    }
  }

  lemma Regroup(a: Bytes, b: Bytes, c: Bytes)
    ensures a + b + c == a + (b + c)
  {
  }

  /** A message over the cap is refused once its four length bytes are there, however they came. */
  lemma {:induction false} OverlongIsRefused(payloads: seq<Bytes>, long: Bytes, more: Bytes, cap: nat)
    requires cap < |long| < Pow256(4) && forall i :: 0 <= i < |payloads| ==> |payloads[i]| <= cap
    ensures Deframe(Frames(payloads) + (Frame(long) + more), cap) == Scan(payloads, Frame(long) + more, true)
  {
    if payloads == [] {
      var buf := Frame(long) + more;
      assert buf[..4] == Put(|long|, 4);
      GetPut(|long|, 4);
      assert [] + buf == buf;
    } else {
      OverlongIsRefused(payloads[1..], long, more, cap);
      var tail := Frames(payloads[1..]) + (Frame(long) + more);
      FirstOfFrame(payloads[0], tail, cap);
      Regroup(Frame(payloads[0]), Frames(payloads[1..]), Frame(long) + more);
      DeframeWhole(Frame(payloads[0]) + tail, cap, payloads[0], tail);
      assert payloads == [payloads[0]] + payloads[1..];
    }
  }
}
