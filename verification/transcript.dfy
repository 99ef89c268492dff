/**
 * Messages of the conversation transcript and the views of it that the
 * `/hist` command shows.
 */
module Transcript {

  /** The three roles a message can carry on the wire. */
  datatype Role = System | User | Assistant

  /** One role-tagged message; immutable once built. */
  datatype Message = Message(role: Role, content: string)

  /** The messages of `h` that carry role `role`, in their original order. */
  function OfRole(h: seq<Message>, role: Role): (r: seq<Message>)
    ensures |r| <= |h|
    ensures forall i :: 0 <= i < |r| ==> r[i].role == role
    decreases |h|
  {
    if h == [] then []
    else (if h[0].role == role then [h[0]] else []) + OfRole(h[1..], role)
  }

  /** The view keeps every copy of each message of that role, and nothing else. */
  lemma {:induction false} OfRoleCounts(h: seq<Message>, role: Role, m: Message)
    ensures multiset(OfRole(h, role))[m] == if m.role == role then multiset(h)[m] else 0
    decreases |h|
  {
    if h != [] {
      OfRoleCounts(h[1..], role, m);
      var head := if h[0].role == role then [h[0]] else [];
      assert OfRole(h, role) == head + OfRole(h[1..], role);
      assert multiset(OfRole(h, role)) == multiset(head) + multiset(OfRole(h[1..], role));
      assert h == [h[0]] + h[1..];
      assert multiset(h) == multiset([h[0]]) + multiset(h[1..]);
    }
  }

  /** Filtering a concatenation filters each part. */
  lemma {:induction false} OfRoleAppend(a: seq<Message>, b: seq<Message>, role: Role)
    ensures OfRole(a + b, role) == OfRole(a, role) + OfRole(b, role)
    decreases |a|
  {
    if a == [] {
      assert a + b == b;
    } else {
      OfRoleAppend(a[1..], b, role);
      assert (a + b)[0] == a[0];
      assert (a + b)[1..] == a[1..] + b;
      var head := if a[0].role == role then [a[0]] else [];
      calc {
        OfRole(a + b, role);
        head + OfRole(a[1..] + b, role);
        head + (OfRole(a[1..], role) + OfRole(b, role));
        (head + OfRole(a[1..], role)) + OfRole(b, role);
        OfRole(a, role) + OfRole(b, role);
      }
    }
  }

  /** Every message belongs to exactly one role's view. */
  lemma {:induction false} OfRolePartition(h: seq<Message>)
    ensures |OfRole(h, System)| + |OfRole(h, User)| + |OfRole(h, Assistant)| == |h|
    decreases |h|
  {
    if h != [] {
      OfRolePartition(h[1..]);
    }
  }

  /** Filtering twice by the same role changes nothing more. */
  lemma {:induction false} OfRoleIdempotent(h: seq<Message>, role: Role)
    ensures OfRole(OfRole(h, role), role) == OfRole(h, role)
    decreases |h|
  {
    if h != [] {
      OfRoleIdempotent(h[1..], role);
      var rest := OfRole(h[1..], role);
      if h[0].role == role {
        assert OfRole(h, role) == [h[0]] + rest;
        assert ([h[0]] + rest)[1..] == rest;
      } else {
        assert OfRole(h, role) == rest;
      }
    }
  }

  /** What `/hist <option>` lists: the user messages for "user", the assistant
      messages for "assistant", and the whole transcript for any other option. */
  function HistoryView(h: seq<Message>, option: string): seq<Message>
  {
    if option == "user" then OfRole(h, User)
    else if option == "assistant" then OfRole(h, Assistant)
    else h
  }

  /** The shape of a transcript built by the chat loop: the greeting from the
      assistant, then user and assistant messages taking turns. */
  predicate Alternating(h: seq<Message>)
  {
    |h| % 2 == 1 && h[0].role == Assistant
    && forall i :: 1 <= i < |h| ==> h[i].role == (if i % 2 == 1 then User else Assistant)
  }

  /** Filtering one user message followed by one assistant message. */
  lemma OfRolePair(u: Message, a: Message)
    requires u.role == User && a.role == Assistant
    ensures OfRole([u, a], User) == [u]
    ensures OfRole([u, a], Assistant) == [a]
    ensures OfRole([u, a], System) == []
  {
    assert [u, a][1..] == [a];
  }

  /** The user messages of an alternating transcript sit at its odd positions. */
  lemma {:induction false} AlternatingUserCount(h: seq<Message>)
    requires Alternating(h)
    ensures |OfRole(h, User)| == |h| / 2
    ensures |OfRole(h, Assistant)| == |h| / 2 + 1
    ensures OfRole(h, System) == []
    decreases |h|
  {
    if |h| == 1 {
      assert OfRole(h, User) == [] && OfRole(h, System) == [];
    } else {
      var k := |h| - 2;
      var prefix := h[..k];
      assert Alternating(prefix) by {
        forall i | 1 <= i < k
          ensures prefix[i].role == (if i % 2 == 1 then User else Assistant)
        {
          assert prefix[i] == h[i];
        }
      }
      AlternatingUserCount(prefix);
      assert h == prefix + [h[k], h[k + 1]];
      OfRolePair(h[k], h[k + 1]);
      OfRoleAppend(prefix, [h[k], h[k + 1]], User);
      OfRoleAppend(prefix, [h[k], h[k + 1]], Assistant);
      OfRoleAppend(prefix, [h[k], h[k + 1]], System);
    }
  }

  /** One chat turn, a user message then an assistant message, keeps the shape. */
  lemma AlternatingExtend(h: seq<Message>, u: Message, a: Message)
    requires Alternating(h) && u.role == User && a.role == Assistant
    ensures Alternating(h + [u, a])
  {
    var h' := h + [u, a];
    forall i | 1 <= i < |h'|
      ensures h'[i].role == (if i % 2 == 1 then User else Assistant)
    {
      if i < |h| {
        assert h'[i] == h[i];
      }
    }
  }
}
