/** The Redis keys of a queue (internal/base/base.go), and when two queues share one. */
module Keys {
  import opened Base

  function QueueKeyPrefix(qname: string): string {
    "asynq:{" + qname + "}:"
  }

  function TaskKey(qname: string, id: string): string {
    QueueKeyPrefix(qname) + "t:" + id
  }

  /** A queue name that continues another one past the end of its hash tag and into a task key. */
  ghost predicate Extends(longer: string, shorter: string) {
    shorter + "}:t:" <= longer
  }

  lemma TaskKeyTail(q: string, id: string)
    ensures TaskKey(q, id) == "asynq:{" + (q + "}:t:" + id)
  {
    assert "}:" + "t:" == "}:t:";
    assert TaskKey(q, id) == "asynq:{" + (q + ("}:" + "t:") + id);
  }

  lemma EqualTails(q1: string, id1: string, q2: string, id2: string)
    requires TaskKey(q1, id1) == TaskKey(q2, id2)
    ensures q1 + "}:t:" + id1 == q2 + "}:t:" + id2
  {
    TaskKeyTail(q1, id1);
    TaskKeyTail(q2, id2);
    var a, b := q1 + "}:t:" + id1, q2 + "}:t:" + id2;
    assert ("asynq:{" + a)[7..] == a && ("asynq:{" + b)[7..] == b;
  }

  lemma OrderedCollision(q1: string, id1: string, q2: string, id2: string)
    requires |q1| <= |q2| && TaskKey(q1, id1) == TaskKey(q2, id2)
    ensures (q1 == q2 && id1 == id2) || Extends(q2, q1)
  {
    EqualTails(q1, id1, q2, id2);
    var s, t := q1 + "}:t:" + id1, q2 + "}:t:" + id2;
    var k := |q1|;
    assert s[k] == '}' && s[k + 1] == ':' && s[k + 2] == 't' && s[k + 3] == ':';
    assert t[|q2|] == '}' && t[|q2| + 1] == ':' && t[|q2| + 2] == 't' && t[|q2| + 3] == ':';
    if |q2| == k {
      assert q1 == s[..k] == t[..k] == q2;
      assert id1 == s[k + 4..] == t[k + 4..] == id2;
    } else {
      assert |q2| >= k + 4;
      assert q2[..k + 4] == t[..k + 4] == s[..k + 4] == q1 + "}:t:";
    }
  }

  /**
   ValidateQueueName accepts any name that is not blank.  Two queues can have a task key in common
   if and only if they are the same or one name extends the other past a closing brace, and then
   with ids that are not blank, as a client can submit them.
   */
  lemma TaskKeysCollide(q1: string, q2: string)
    ensures (exists id1, id2 :: !Blank(id1) && !Blank(id2) && TaskKey(q1, id1) == TaskKey(q2, id2))
            <==> q1 == q2 || Extends(q2, q1) || Extends(q1, q2)
  {
    if id1, id2 :| !Blank(id1) && !Blank(id2) && TaskKey(q1, id1) == TaskKey(q2, id2) {
      if |q1| <= |q2| { OrderedCollision(q1, id1, q2, id2); } else { OrderedCollision(q2, id2, q1, id1); }
    }
    if q1 == q2 {
      assert !Blank("x") by { assert !IsSpace("x"[0]); }
      assert TaskKey(q1, "x") == TaskKey(q2, "x");
    }
    if Extends(q2, q1) { Witness(q1, q2); }
    if Extends(q1, q2) { Witness(q2, q1); }
  }

  lemma Witness(shorter: string, longer: string)
    requires Extends(longer, shorter)
    ensures var id := longer[|shorter| + 4..] + "}:t:x";
            !Blank(id) && !Blank("x") && TaskKey(shorter, id) == TaskKey(longer, "x")
  {
    var rest := longer[|shorter| + 4..];
    var id := rest + "}:t:x";
    assert !IsSpace("x"[0]) && !IsSpace(id[|rest|]);
    assert longer == shorter + "}:t:" + rest;
    TaskKeyTail(shorter, id);
    TaskKeyTail(longer, "x");
    assert rest + "}:t:x" == rest + "}:t:" + "x";
    assert shorter + "}:t:" + id == longer + "}:t:" + "x";
  }

  /** So queues whose names have no closing brace never share a task, and ids within a queue are distinct keys. */
  lemma BracelessQueuesAreSeparate(q1: string, id1: string, q2: string, id2: string)
    requires '}' !in q1 && '}' !in q2
    ensures TaskKey(q1, id1) == TaskKey(q2, id2) <==> q1 == q2 && id1 == id2
  {
    if TaskKey(q1, id1) == TaskKey(q2, id2) {
      if |q1| <= |q2| { OrderedCollision(q1, id1, q2, id2); NotExtended(q2, q1); }
      else { OrderedCollision(q2, id2, q1, id1); NotExtended(q1, q2); }
    }
  }

  lemma NotExtended(longer: string, shorter: string)
    requires '}' !in longer
    ensures !Extends(longer, shorter)
  {
    if |longer| > |shorter| {
      assert longer[|shorter|] != '}';
      assert (shorter + "}:t:")[|shorter|] == '}';
    }
  }
}
