/**
 The bounded retry loop that takes a work connection for one user connection
 (server/proxy/proxy.go). What the pool answers, and whether the StartWorkConn message can
 be written, is given for each try.
 */
module WorkConnPool {
  import opened Wrappers

  datatype Answer = NoConn | Conn(id: nat, writes: bool)

  predicate Settles(a: Answer)
  {
    a.NoConn? || a.writes
  }

  /** The first try that ends the loop, or the number of tries if none does. */
  function FirstSettled(answers: seq<Answer>): (k: nat)
    ensures k <= |answers| && (k < |answers| ==> Settles(answers[k]))
    ensures forall i :: 0 <= i < k ==> answers[i].Conn? && !answers[i].writes
  {
    if answers == [] then 0
    else if Settles(answers[0]) then 0
    else
      assert forall i :: 1 <= i < |answers| ==> answers[i] == answers[1..][i - 1];
      1 + FirstSettled(answers[1..])
  }

  lemma {:induction false} FirstSettledIs(answers: seq<Answer>, k: nat)
    requires k <= |answers| && (k < |answers| ==> Settles(answers[k]))
    requires forall i :: 0 <= i < k ==> !Settles(answers[i])
    ensures FirstSettled(answers) == k
  {
    if k > 0 {
      FirstSettledIs(answers[1..], k - 1);
    }
  }

  predicate IsConnOf(answers: seq<Answer>, i: nat, id: nat)
  {
    i < |answers| && answers[i].Conn? && answers[i].id == id
  }

  /**
   There is one try more than the pool count. The error of a failed write is not the error returned. So without an error the message
   was sent exactly if some try settled; if none did, the last connection, already closed,
   is returned as a success.
   */
  method GetWorkConnFromPool(poolCount: int, answers: seq<Answer>)
    returns (workConn: Option<nat>, err: bool, sent: bool, closed: seq<nat>)
    requires |answers| == if poolCount >= 0 then poolCount + 1 else 0
    ensures var k := FirstSettled(answers);
      && (err <==> k < |answers| && answers[k].NoConn?)
      && (sent <==> k < |answers| && answers[k].Conn?)
      && (sent ==> workConn == Some(answers[k].id))
      && |closed| == k && (forall i :: 0 <= i < k ==> IsConnOf(answers, i, closed[i]))
    ensures var k := |closed|;
      && k <= |answers| && (forall i :: 0 <= i < k ==> answers[i] == Conn(closed[i], false))
      && (err <==> k < |answers| && answers[k] == NoConn)
      && (sent <==> k < |answers| && answers[k].Conn? && answers[k].writes)
      && (!err && !sent ==> k == |answers|)
    ensures (!err ==> sent) <==> exists i :: 0 <= i < |answers| && Settles(answers[i])
    ensures !err && !sent ==> workConn == if |closed| == 0 then None else Some(closed[|closed| - 1])
  {
    workConn, err, sent, closed := None, false, false, [];
    var i := 0;
    while i < poolCount + 1
      invariant 0 <= i <= |answers| && |closed| == i && !err && !sent
      invariant forall j :: 0 <= j < i ==> !Settles(answers[j])
      invariant forall j :: 0 <= j < i ==> IsConnOf(answers, j, closed[j]) && answers[j] == Conn(closed[j], false)
      invariant workConn == if i == 0 then None else Some(closed[i - 1])
    {
      if answers[i].NoConn? {
        FirstSettledIs(answers, i);
        return None, true, false, closed;
      }
      workConn := Some(answers[i].id);
      if answers[i].writes {
        sent := true;
        break;
      }
      closed := closed + [answers[i].id];
      i := i + 1;
    }
    FirstSettledIs(answers, i);
  }
}
