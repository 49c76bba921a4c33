/** The span store: per pod a growable buffer, trimmed by compacting it in place. */
module SpanStorage {
  import opened Common
  import opened SpanLog

  class SpanStore {
    /** Per pod the slice's buffer and length. */
    var buffers: map<string, array<ToolCall>>
    var lengths: map<string, nat>

    /** What the slices hold. */
    ghost var calls: Calls

    /** Every slice fits its buffer and holds what calls says, the pods in stale apart; no
        two pods share a buffer. */
    ghost predicate ValidBut(stale: set<string>)
      reads this, buffers.Values
    {
      && buffers.Keys == lengths.Keys == calls.Keys
      && (forall k :: k in buffers && k !in stale ==> Holds(buffers[k], lengths[k], calls[k]))
      && (forall j, k :: j in buffers && k in buffers && j != k ==> buffers[j] != buffers[k])
    }

    ghost predicate Valid()
      reads this, buffers.Values
    {
      ValidBut({})
    }

    constructor ()
      ensures Valid() && calls == map[] && buffers.Values == {}
    {
      buffers, lengths, calls := map[], map[], map[];
    }

    /** Stores a pod's slice. */
    method Put(k: string, buf: array<ToolCall>, n: nat, ghost s: seq<ToolCall>)
      requires ValidBut({k}) && Holds(buf, n, s)
      requires buf !in buffers.Values || (k in buffers && buffers[k] == buf)
      modifies this
      ensures Valid() && calls == old(calls)[k := s]
      ensures buffers == old(buffers)[k := buf]
    {
      buffers, lengths, calls := buffers[k := buf], lengths[k := n], calls[k := s];
    }

    /** Forgets a pod. */
    method Drop(k: string)
      requires ValidBut({k})
      modifies this
      ensures Valid() && calls == old(calls) - {k}
      ensures buffers.Values <= old(buffers.Values)
    {
      buffers, lengths, calls := buffers - {k}, lengths - {k}, calls - {k};
    }

    method Record(namespace: string, pod: string, tool: string, ts: Time)
      requires Valid()
      modifies this, buffers.Values
      ensures Valid() && fresh(buffers.Values - old(buffers.Values))
      ensures calls == RecordStep(old(calls), Key(namespace, pod), ToolCall(tool, ts))
    {
      var k, c := Key(namespace, pod), ToolCall(tool, ts);
      var slice: array?<ToolCall>, n := null, 0;
      if k in buffers {
        slice, n := buffers[k], lengths[k];
      }
      var buf := Append(slice, n, c, CallsOf(calls, k));
      Put(k, buf, n + 1, CallsOf(calls, k) + [c]);
    }

    /** A new sequence with the pod's calls of the last windowSeconds. */
    method Window(namespace: string, pod: string, windowSeconds: int, now: Time) returns (out: seq<ToolCall>)
      requires Valid()
      ensures out == WindowOf(calls, Key(namespace, pod), windowSeconds, now)
    {
      var k := Key(namespace, pod);
      var cutoff := now - windowSeconds * SECOND;
      out := [];
      if k !in buffers {
        return;
      }
      var buf, len := buffers[k], lengths[k];
      ghost var all := calls[k];
      var i := 0;
      while i < len
        invariant i <= len
        invariant out == Newer(all[..i], cutoff)
      {
        assert all[..i + 1] == all[..i] + [buf[i]];
        NewerSnoc(all[..i], buf[i], cutoff);
        if buf[i].at > cutoff {
          out := out + [buf[i]];
        }
        i := i + 1;
      }
      assert all[..len] == all;
    }

    /** What the loop of Trim does to one pod. */
    method TrimPod(k: string, cutoff: Time)
      requires Valid() && k in buffers
      modifies this, buffers.Values
      ensures Valid() && buffers.Values <= old(buffers.Values)
      ensures calls == var kept := Newer(old(calls)[k], cutoff);
        if kept == [] then old(calls) - {k} else old(calls)[k := kept]
    {
      hide Newer;
      var n := CompactNewer(buffers[k], lengths[k], calls[k], cutoff);
      if n == 0 {
        Drop(k);
      } else {
        Put(k, buffers[k], n, Newer(calls[k], cutoff));
      }
    }

    /** Discards the calls older than maxAge, pod by pod, in the order the map iteration takes. */
    method Trim(maxAge: int, now: Time)
      requires Valid()
      modifies this, buffers.Values
      ensures Valid() && buffers.Values <= old(buffers.Values)
      ensures calls == TrimStep(old(calls), now - maxAge)
    {
      hide Newer, TrimStep, TrimmedExcept;
      var cutoff := now - maxAge;
      TrimmedBounds(calls, cutoff);
      var pending := buffers.Keys;
      while pending != {}
        invariant Valid() && pending <= old(calls).Keys
        invariant buffers.Values <= old(buffers.Values)
        invariant calls == TrimmedExcept(old(calls), pending, cutoff)
      {
        var k :| k in pending;
        TrimmedNext(old(calls), pending, k, cutoff);
        TrimPod(k, cutoff);
        pending := pending - {k};
      }
    }
  }

  /** The store when the pods still pending have not been trimmed yet. */
  ghost function TrimmedExcept(m: Calls, pending: set<string>, cutoff: Time): Calls {
    map k | k in m && (k in pending || Newer(m[k], cutoff) != []) ::
      if k in pending then m[k] else Newer(m[k], cutoff)
  }

  lemma TrimmedBounds(m: Calls, cutoff: Time)
    ensures TrimmedExcept(m, m.Keys, cutoff) == m
    ensures TrimmedExcept(m, {}, cutoff) == TrimStep(m, cutoff)
  {
  }

  lemma TrimmedNext(m: Calls, pending: set<string>, k: string, cutoff: Time)
    requires k in pending && pending <= m.Keys
    ensures var t := TrimmedExcept(m, pending, cutoff);
      && k in t
      && TrimmedExcept(m, pending - {k}, cutoff)
         == if Newer(t[k], cutoff) == [] then t - {k} else t[k := Newer(t[k], cutoff)]
  {
  }

  /** The first len elements of the buffer are s. */
  ghost predicate Holds(a: array<ToolCall>, len: nat, s: seq<ToolCall>)
    reads a
  {
    len == |s| <= a.Length && forall i :: 0 <= i < len ==> a[i] == s[i]
  }

  /** append: in place while the buffer has room, otherwise into a larger copy; a pod
      without calls has no buffer yet. */
  method Append(a: array?<ToolCall>, len: nat, c: ToolCall, ghost s: seq<ToolCall>) returns (buf: array<ToolCall>)
    requires if a == null then len == 0 && s == [] else Holds(a, len, s)
    modifies a
    ensures buf == a || fresh(buf)
    ensures Holds(buf, len + 1, s + [c])
  {
    if a != null && len < a.Length {
      buf := a;
    } else {
      buf := new ToolCall[2 * len + 1];
      forall i | 0 <= i < len {
        buf[i] := a[i];
      }
    }
    buf[len] := c;
  }

  /** keep := calls[:0] and append: the kept calls are written over the front of the very
      buffer being read. The write position never overtakes the read position. */
  method CompactNewer(a: array<ToolCall>, len: nat, ghost s: seq<ToolCall>, cutoff: Time) returns (n: nat)
    requires Holds(a, len, s)
    modifies a
    ensures Holds(a, n, Newer(s, cutoff))
  {
    hide Newer;
    NewerEmpty(cutoff);
    n := 0;
    var i := 0;
    assert s[..0] == [];
    while i < len
      invariant n <= i <= len
      invariant Holds(a, n, Newer(s[..i], cutoff))
      invariant forall j :: i <= j < len ==> a[j] == s[j]
    {
      assert s[..i + 1] == s[..i] + [s[i]];
      NewerSnoc(s[..i], s[i], cutoff);
      if a[i].at > cutoff {
        a[n] := a[i];
        n := n + 1;
      }
      i := i + 1;
    }
    assert s[..len] == s;
  }
}
