/**
 Option lists of PPP configure packets (type, length, data) and the two filters
 that build a Configure-Reject from a received Configure-Request.
 */
module Options {
  import opened Types

  const MAX_OPTIONS := 8
  const LCP_KNOWN: set<Byte> := {1, 3, 5}   // MRU, authentication protocol, magic number
  const IPCP_ADDRESS: set<Byte> := {3}

  datatype Tlv = Tlv(kind: Byte, body: seq<Byte>)

  predicate Valid(o: Tlv) {
    |o.body| <= 253
  }

  ghost predicate AllValid(os: seq<Tlv>) {
    forall o <- os :: Valid(o)
  }

  function Size(o: Tlv): nat {
    2 + |o.body|
  }

  function TotalSize(os: seq<Tlv>): nat {
    if os == [] then 0 else Size(os[0]) + TotalSize(os[1..])
  }

  function Encode(o: Tlv): seq<Byte>
    requires Valid(o)
  {
    [o.kind, Size(o)] + o.body
  }

  ghost function EncodeAll(os: seq<Tlv>): seq<Byte>
    requires AllValid(os)
  {
    if os == [] then [] else Encode(os[0]) + EncodeAll(os[1..])
  }

  // What the packet decoder guarantees: every option is at least two bytes
  // long and does not run past the end. A single trailing byte is tolerated.
  predicate WellFormed(b: seq<Byte>) {
    |b| < 2 || (2 <= b[1] <= |b| && WellFormed(b[b[1]..]))
  }

  function Parse(b: seq<Byte>): (os: seq<Tlv>)
    requires WellFormed(b)
    ensures AllValid(os)
  {
    if |b| < 2 then [] else [Tlv(b[0], b[2..b[1]])] + Parse(b[b[1]..])
  }

  // The options whose type is not in `known`, in order.
  function Without(os: seq<Tlv>, known: set<Byte>): (r: seq<Tlv>)
    ensures AllValid(os) ==> AllValid(r)
  {
    if os == [] then []
    else if os[0].kind in known then Without(os[1..], known)
    else [os[0]] + Without(os[1..], known)
  }

  // The options kept when each one is copied only if it still fits.
  function Fit(os: seq<Tlv>, room: nat): (r: seq<Tlv>)
    ensures AllValid(os) ==> AllValid(r)
  {
    if os == [] then []
    else if Size(os[0]) <= room then [os[0]] + Fit(os[1..], room - Size(os[0]))
    else Fit(os[1..], room)
  }

  function FirstOf(os: seq<Tlv>, n: nat): seq<Tlv> {
    if |os| <= n then os else os[..n]
  }

  // ---- Specification of the two filters

  ghost function IpcpReject(b: seq<Byte>): seq<Byte>
    requires WellFormed(b)
  {
    EncodeAll(Fit(Without(Parse(b), IPCP_ADDRESS), OPTIONS_BUFFER))
  }

  ghost function LcpReject(b: seq<Byte>): seq<Byte>
    requires WellFormed(b)
  {
    EncodeAll(Fit(Without(FirstOf(Parse(b), MAX_OPTIONS), LCP_KNOWN), OPTIONS_BUFFER))
  }

  // ---- Encoding and parsing

  lemma {:induction false} EncodeAppend(os: seq<Tlv>, o: Tlv)
    requires AllValid(os) && Valid(o)
    ensures AllValid(os + [o])
    ensures EncodeAll(os + [o]) == EncodeAll(os) + Encode(o)
  {
    hide Encode, Valid;
    if os == [] {
      assert os + [o] == [o];
      assert EncodeAll([o]) == Encode(o) + EncodeAll([]);
    } else {
      EncodeAppend(os[1..], o);
      assert (os + [o])[1..] == os[1..] + [o];
      assert Encode(os[0]) + (EncodeAll(os[1..]) + Encode(o)) == EncodeAll(os) + Encode(o);
    }
  }

  lemma {:induction false} EncodeSize(os: seq<Tlv>)
    requires AllValid(os)
    ensures |EncodeAll(os)| == TotalSize(os)
  {
    if os != [] {
      EncodeSize(os[1..]);
    }
  }

  // Parsing inverts encoding.
  lemma {:induction false} ParseEncode(os: seq<Tlv>)
    requires AllValid(os)
    ensures WellFormed(EncodeAll(os))
    ensures Parse(EncodeAll(os)) == os
  {
    if os != [] {
      ParseEncode(os[1..]);
      var b := EncodeAll(os);
      assert b[1] == Size(os[0]);
      assert b[Size(os[0])..] == EncodeAll(os[1..]);
      assert b[2..b[1]] == os[0].body;
    }
  }

  // Encoding inverts parsing, up to the tolerated trailing byte.
  lemma {:induction false} EncodeParse(b: seq<Byte>)
    requires WellFormed(b)
    ensures EncodeAll(Parse(b)) <= b
    ensures |b| - |EncodeAll(Parse(b))| < 2
  {
    if |b| >= 2 {
      var rest := b[b[1]..];
      EncodeParse(rest);
      var o := Tlv(b[0], b[2..b[1]]);
      assert Parse(b) == [o] + Parse(rest);
      assert Encode(o) == b[..b[1]];
      EncodeFront(o, Parse(rest));
      PrefixAfter(b[..b[1]], EncodeAll(Parse(rest)), rest);
      assert b == b[..b[1]] + rest;
    }
  }

  lemma EncodeFront(o: Tlv, os: seq<Tlv>)
    requires Valid(o) && AllValid(os)
    ensures AllValid([o] + os) && EncodeAll([o] + os) == Encode(o) + EncodeAll(os)
  {
    hide Encode, Valid;
    assert ([o] + os)[1..] == os;
  }

  lemma PrefixAfter(front: seq<Byte>, a: seq<Byte>, b: seq<Byte>)
    requires a <= b
    ensures front + a <= front + b
  {
  }

  lemma {:induction false} FitSize(os: seq<Tlv>, room: nat)
    ensures TotalSize(Fit(os, room)) <= room
  {
    if os != [] {
      if Size(os[0]) <= room {
        FitSize(os[1..], room - Size(os[0]));
        assert Fit(os, room)[1..] == Fit(os[1..], room - Size(os[0]));
      } else {
        FitSize(os[1..], room);
      }
    }
  }

  lemma {:induction false} SameSize(os: seq<Tlv>, n: nat)
    requires forall i :: 0 <= i < |os| ==> Size(os[i]) == n
    ensures TotalSize(os) == |os| * n
  {
    if os != [] {
      SameSize(os[1..], n);
      assert |os| * n == (|os| - 1) * n + n;
    }
  }

  // Nothing is dropped for lack of room exactly when everything fits together.
  lemma {:induction false} FitIsAllIff(os: seq<Tlv>, room: nat)
    ensures Fit(os, room) == os <==> TotalSize(os) <= room
  {
    hide AllValid, Size;
    FitSize(os, room);
    if TotalSize(os) <= room && os != [] {
      FitIsAllIff(os[1..], room - Size(os[0]));
      assert os == [os[0]] + os[1..];
    }
  }

  // ---- What the two Configure-Rejects contain (section 5.4 of RFC 1661)

  // The IPCP reject fits the buffer, parses to a part of the offending options
  // in order, and to all of them exactly when they fit the buffer together.
  lemma IpcpRejectContents(b: seq<Byte>)
    requires WellFormed(b)
    ensures |IpcpReject(b)| <= OPTIONS_BUFFER
    ensures WellFormed(IpcpReject(b))
    ensures Parse(IpcpReject(b)) == Fit(Without(Parse(b), IPCP_ADDRESS), OPTIONS_BUFFER)
    ensures Parse(IpcpReject(b)) == Without(Parse(b), IPCP_ADDRESS)
       <==> TotalSize(Without(Parse(b), IPCP_ADDRESS)) <= OPTIONS_BUFFER
  {
    var bad := Without(Parse(b), IPCP_ADDRESS);
    FitSize(bad, OPTIONS_BUFFER);
    EncodeSize(Fit(bad, OPTIONS_BUFFER));
    ParseEncode(Fit(bad, OPTIONS_BUFFER));
    FitIsAllIff(bad, OPTIONS_BUFFER);
  }

  // The LCP reject lists every unknown option exactly when none of them lies
  // beyond the eighth option and they fit the buffer together.
  lemma LcpRejectContents(b: seq<Byte>)
    requires WellFormed(b)
    ensures |LcpReject(b)| <= OPTIONS_BUFFER
    ensures WellFormed(LcpReject(b))
    ensures var os := Parse(b);
      Parse(LcpReject(b)) == Fit(Without(FirstOf(os, MAX_OPTIONS), LCP_KNOWN), OPTIONS_BUFFER)
    ensures var os := Parse(b);
      Parse(LcpReject(b)) == Without(os, LCP_KNOWN)
      <==> TotalSize(Without(os, LCP_KNOWN)) <= OPTIONS_BUFFER
           && (forall i :: MAX_OPTIONS <= i < |os| ==> os[i].kind in LCP_KNOWN)
  {
    var os := Parse(b);
    var front := FirstOf(os, MAX_OPTIONS);
    var back := os[|front|..];
    var bad := Without(front, LCP_KNOWN);
    assert os == front + back;
    WithoutConcat(front, back, LCP_KNOWN);
    FitSize(bad, OPTIONS_BUFFER);
    EncodeSize(Fit(bad, OPTIONS_BUFFER));
    ParseEncode(Fit(bad, OPTIONS_BUFFER));
    FitIsAllIff(bad, OPTIONS_BUFFER);
    FitLength(bad, OPTIONS_BUFFER);
    WithoutEmptyIff(back, LCP_KNOWN);
    assert forall i :: 0 <= i < |back| ==> back[i] == os[|front| + i];
    if Without(back, LCP_KNOWN) == [] {
      assert Without(os, LCP_KNOWN) == bad;
      forall i | MAX_OPTIONS <= i < |os| ensures os[i].kind in LCP_KNOWN {
        assert os[i] == back[i - |front|];
      }
    } else {
      assert |Fit(bad, OPTIONS_BUFFER)| < |Without(os, LCP_KNOWN)|;
      var j :| 0 <= j < |back| && back[j].kind !in LCP_KNOWN;
      assert os[|front| + j].kind !in LCP_KNOWN;
    }
  }

  // For example: of nine unknown options, all of which would fit, eight are rejected.
  lemma NinthOptionMissing(os: seq<Tlv>)
    requires os == seq(9, _ => Tlv(20, []))
    ensures AllValid(os) && WellFormed(EncodeAll(os)) && Without(Parse(EncodeAll(os)), LCP_KNOWN) == os
    ensures WellFormed(LcpReject(EncodeAll(os))) && Parse(LcpReject(EncodeAll(os))) == os[..8]
  {
    assert AllValid(os);
    assert forall i :: 0 <= i < 9 ==> os[i].kind !in LCP_KNOWN && Size(os[i]) == 2;
    hide Parse, WellFormed, EncodeAll, LcpReject, Without, Fit, Size, AllValid;
    ParseEncode(os);
    LcpRejectContents(EncodeAll(os));
    AllUnknown(os, LCP_KNOWN);
    AllUnknown(os[..8], LCP_KNOWN);
    SameSize(os[..8], 2);
    FitIsAllIff(os[..8], OPTIONS_BUFFER);
  }

  lemma {:induction false} AllUnknown(os: seq<Tlv>, known: set<Byte>)
    requires forall i :: 0 <= i < |os| ==> os[i].kind !in known
    ensures Without(os, known) == os
  {
    if os != [] {
      AllUnknown(os[1..], known);
    }
  }

  lemma {:induction false} WithoutConcat(a: seq<Tlv>, b: seq<Tlv>, known: set<Byte>)
    ensures Without(a + b, known) == Without(a, known) + Without(b, known)
  {
    hide Without, AllValid;
    if a == [] {
      assert a + b == b;
      WithoutNone(known);
    } else {
      WithoutConcat(a[1..], b, known);
      WithoutCons(a[0], a[1..] + b, known);
      WithoutCons(a[0], a[1..], known);
      assert a == [a[0]] + a[1..];
      assert a + b == [a[0]] + (a[1..] + b);
    }
  }

  lemma WithoutNone(known: set<Byte>)
    ensures Without([], known) == []
  {
  }

  lemma {:induction false} WithoutEmptyIff(os: seq<Tlv>, known: set<Byte>)
    ensures Without(os, known) == [] <==> forall i :: 0 <= i < |os| ==> os[i].kind in known
  {
    if os != [] {
      WithoutEmptyIff(os[1..], known);
      assert forall i :: 0 < i < |os| ==> os[i] == os[1..][i - 1];
    }
  }

  lemma {:induction false} FitLength(os: seq<Tlv>, room: nat)
    ensures |Fit(os, room)| <= |os|
  {
    if os != [] {
      FitLength(os[1..], if Size(os[0]) <= room then room - Size(os[0]) else room);
    }
  }

  // ---- The filters as the program runs them

  // The first option of a well-formed list.
  ghost function Head(b: seq<Byte>): Tlv
    requires WellFormed(b) && |b| >= 2
  {
    Tlv(b[0], b[2..b[1]])
  }

  lemma {:induction false} ParseHead(b: seq<Byte>)
    requires WellFormed(b) && |b| >= 2
    ensures 2 <= b[1] <= |b| && WellFormed(b[b[1]..])
    ensures Valid(Head(b)) && Encode(Head(b)) == b[..b[1]]
    ensures Size(Head(b)) == b[1]
    ensures Parse(b) == [Head(b)] + Parse(b[b[1]..])
  {
  }

  lemma ParseTail(b: seq<Byte>)
    requires |b| < 2
    ensures WellFormed(b) && Parse(b) == []
  {
  }

  lemma {:induction false} WithoutCons(o: Tlv, os: seq<Tlv>, known: set<Byte>)
    ensures Without([o] + os, known)
         == if o.kind in known then Without(os, known) else [o] + Without(os, known)
  {
    var all := [o] + os;
    assert all[0] == o && all[1..] == os;
  }

  lemma {:induction false} FitCons(o: Tlv, os: seq<Tlv>, room: nat)
    ensures Fit([o] + os, room)
         == if Size(o) <= room then [o] + Fit(os, room - Size(o)) else Fit(os, room)
  {
    var all := [o] + os;
    assert all[0] == o && all[1..] == os;
  }

  // The state of the copying loops: `copied` is in the buffer, `left` is still to come.
  ghost predicate Copying(goal: seq<Tlv>, copied: seq<Tlv>, left: seq<Tlv>, known: set<Byte>,
                          written: seq<Byte>)
  {
    && AllValid(copied)
    && |written| <= OPTIONS_BUFFER
    && written == EncodeAll(copied)
    && goal == copied + Fit(Without(left, known), OPTIONS_BUFFER - |written|)
  }

  lemma CopyStart(os: seq<Tlv>, known: set<Byte>)
    ensures Copying(Fit(Without(os, known), OPTIONS_BUFFER), [], os, known, [])
  {
    hide Fit, Without;
  }

  lemma EncodeLength(o: Tlv)
    requires Valid(o)
    ensures |Encode(o)| == Size(o)
  {
  }

  lemma {:induction false} CopyStep(goal: seq<Tlv>, copied: seq<Tlv>, o: Tlv, left: seq<Tlv>, known: set<Byte>, written: seq<Byte>)
    requires Valid(o) && Copying(goal, copied, [o] + left, known, written)
    ensures if o.kind !in known && |written| + Size(o) <= OPTIONS_BUFFER
            then Copying(goal, copied + [o], left, known, written + Encode(o))
            else Copying(goal, copied, left, known, written)
  {
    hide Without, Fit, EncodeAll, Encode, AllValid;
    WithoutCons(o, left, known);
    var bad := Without(left, known);
    var room := OPTIONS_BUFFER - |written|;
    if o.kind !in known {
      FitCons(o, bad, room);
      if Size(o) <= room {
        EncodeAppend(copied, o);
        var rest := Fit(bad, room - Size(o));
        assert copied + ([o] + rest) == (copied + [o]) + rest;
        EncodeLength(o);
      }
    }
  }

  lemma {:induction false} CopyDone(goal: seq<Tlv>, copied: seq<Tlv>, known: set<Byte>, written: seq<Byte>)
    requires Copying(goal, copied, [], known, written)
    ensures AllValid(goal) && written == EncodeAll(goal)
  {
    assert goal == copied;
  }

  // memcpy
  method Copy(src: seq<Byte>, buffer: array<Byte>, at: nat)
    requires at + |src| <= buffer.Length
    modifies buffer
    ensures buffer[..at + |src|] == old(buffer[..at]) + src
    ensures buffer[at + |src|..] == old(buffer[at + |src|..])
  {
    forall k | 0 <= k < |src| {
      buffer[at + k] := src[k];
    }
  }

  // bbl_access_rx_ipcp_conf_reject: `buffer` is the session's option buffer.
  method FilterIpcp(b: seq<Byte>, buffer: array<Byte>) returns (len: nat)
    requires WellFormed(b)
    requires buffer.Length == OPTIONS_BUFFER
    modifies buffer
    ensures len <= OPTIONS_BUFFER
    ensures buffer[..len] == IpcpReject(b)
    ensures buffer[len..] == old(buffer[len..])
  {
    hide Without, Fit, AllValid, Parse, WellFormed, Copying, EncodeAll;
    len := 0;
    var rest := b;
    ghost var copied: seq<Tlv> := [];
    ghost var goal := Fit(Without(Parse(b), IPCP_ADDRESS), OPTIONS_BUFFER);
    CopyStart(Parse(b), IPCP_ADDRESS);
    assert buffer[..0] == [];
    while |rest| >= 2
      invariant len <= OPTIONS_BUFFER
      invariant WellFormed(rest)
      invariant Copying(goal, copied, Parse(rest), IPCP_ADDRESS, buffer[..len])
      invariant buffer[len..] == old(buffer[..])[len..]
      decreases |rest|
    {
      var kind, size := rest[0], rest[1];
      ghost var o := Head(rest);
      ParseHead(rest);
      CopyStep(goal, copied, o, Parse(rest[size..]), IPCP_ADDRESS, buffer[..len]);
      if kind !in IPCP_ADDRESS {
        if len + size <= OPTIONS_BUFFER {
          Copy(rest[..size], buffer, len);
          copied := copied + [o];
          len := len + size;
        }
      }
      rest := rest[size..];
    }
    ParseTail(rest);
    CopyDone(goal, copied, IPCP_ADDRESS, buffer[..len]);
  }

  // The option pointers that the LCP decoder keeps, each as the bytes it points at.
  ghost predicate PointTo(ptr: seq<seq<Byte>>, os: seq<Tlv>) {
    && |ptr| == |os|
    && forall i :: 0 <= i < |ptr| ==> Valid(os[i]) && Encode(os[i]) <= ptr[i]
  }

  lemma PointToMore(ptr: seq<seq<Byte>>, seen: seq<Tlv>, o: Tlv, rest: seq<Byte>)
    requires PointTo(ptr, FirstOf(seen, MAX_OPTIONS)) && Valid(o) && Encode(o) <= rest
    ensures PointTo(if |ptr| < MAX_OPTIONS then ptr + [rest] else ptr, FirstOf(seen + [o], MAX_OPTIONS))
  {
    hide Encode, Valid;
    if |seen| >= MAX_OPTIONS {
      assert (seen + [o])[..MAX_OPTIONS] == seen[..MAX_OPTIONS];
    }
  }

  method OptionPointers(b: seq<Byte>) returns (ptr: seq<seq<Byte>>)
    requires WellFormed(b)
    ensures PointTo(ptr, FirstOf(Parse(b), MAX_OPTIONS))
  {
    hide Parse, WellFormed, PointTo, FirstOf, Encode;
    ptr := [];
    var rest := b;
    ghost var seen: seq<Tlv> := [];
    PointToNone();
    while |rest| >= 2
      invariant WellFormed(rest)
      invariant Parse(b) == seen + Parse(rest)
      invariant PointTo(ptr, FirstOf(seen, MAX_OPTIONS))
      decreases |rest|
    {
      var size := rest[1];
      ParseHead(rest);
      ghost var o := Head(rest);
      PointToMore(ptr, seen, o, rest);
      if |ptr| < MAX_OPTIONS {
        ptr := ptr + [rest];
      }
      assert seen + ([o] + Parse(rest[size..])) == seen + [o] + Parse(rest[size..]);
      seen := seen + [o];
      rest := rest[size..];
    }
    ParseTail(rest);
    assert seen + [] == seen;
  }

  lemma PointToNone()
    ensures PointTo([], FirstOf([], MAX_OPTIONS))
  {
  }

  lemma PointsAt(ptr: seq<seq<Byte>>, os: seq<Tlv>, i: nat)
    requires PointTo(ptr, os) && i < |ptr|
    ensures i < |os| && Valid(os[i]) && Size(os[i]) <= |ptr[i]|
    ensures ptr[i][0] == os[i].kind && ptr[i][1] == Size(os[i]) && ptr[i][..Size(os[i])] == Encode(os[i])
  {
  }

  // bbl_access_rx_lcp_conf_reject
  method FilterLcp(b: seq<Byte>, buffer: array<Byte>) returns (len: nat)
    requires WellFormed(b)
    requires buffer.Length == OPTIONS_BUFFER
    modifies buffer
    ensures len <= OPTIONS_BUFFER
    ensures buffer[..len] == LcpReject(b)
    ensures buffer[len..] == old(buffer[len..])
  {
    hide Without, Fit, AllValid, Parse, WellFormed, Copying, EncodeAll, PointTo, FirstOf, Encode;
    var ptr := OptionPointers(b);
    len := 0;
    ghost var os := FirstOf(Parse(b), MAX_OPTIONS);
    ghost var copied: seq<Tlv> := [];
    ghost var goal := Fit(Without(os, LCP_KNOWN), OPTIONS_BUFFER);
    assert os[0..] == os;
    PointToLength(ptr, os);
    CopyStart(os, LCP_KNOWN);
    assert buffer[..0] == [];
    for i := 0 to |ptr|
      invariant len <= OPTIONS_BUFFER
      invariant Copying(goal, copied, os[i..], LCP_KNOWN, buffer[..len])
      invariant buffer[len..] == old(buffer[..])[len..]
    {
      PointsAt(ptr, os, i);
      ghost var o := os[i];
      var kind, size := ptr[i][0], ptr[i][1];
      assert os[i..] == [o] + os[i + 1..];
      CopyStep(goal, copied, o, os[i + 1..], LCP_KNOWN, buffer[..len]);
      if kind !in LCP_KNOWN {
        if len + size <= OPTIONS_BUFFER {
          Copy(ptr[i][..size], buffer, len);
          copied := copied + [o];
          len := len + size;
        }
      }
    }
    assert os[|ptr|..] == [];
    CopyDone(goal, copied, LCP_KNOWN, buffer[..len]);
  }

  lemma PointToLength(ptr: seq<seq<Byte>>, os: seq<Tlv>)
    requires PointTo(ptr, os)
    ensures |ptr| == |os|
  {
  }
}
