// The client methods of pkg/etcd/client.go over one shared server. A request may be lost on its way to
// the server or its reply may be lost; other clients step between the read and the write of a Put.
module EtcdClient {
  import opened Common
  import opened Keys
  import opened EtcdStore

  datatype Value = Value(key: Key, data: Bytes, modified: nat)
  datatype Error = Nil | NotFound | Conflict | Unavailable
  datatype Fault = Healthy | LostRequest | LostReply

  const ZeroValue := Value([], [], 0)

  // The server after a request: a lost request leaves it alone, a lost reply does not.
  function After(s: Server, step: Step, fault: Fault): Server
    requires Valid(s)
  {
    if fault == LostRequest then s else Exec(s, step)
  }

  // The empty key is refused with an error of its own.
  function Answer(s: Server, step: Step, fault: Fault): (r: (nat, Error))
    requires Valid(s) && step.Cas?
  {
    if fault != Healthy || step.key == [] then (0, Unavailable)
    else match Effect(s, step)
      case Written(_, rev) => (rev, Nil)
      case _ => (0, Conflict)
  }

  class Etcd {
    var server: Server

    constructor ()
      ensures server == NewServer
    {
      server := NewServer;
    }

    method Commit(step: Step, fault: Fault) returns (succeeded: bool, header: nat, err: Error)
      requires Valid(server) && step.Cas?
      modifies this
      ensures Valid(server) && server == After(old(server), step, fault)
      ensures err == if fault == Healthy && step.key != [] then Nil else Unavailable
      ensures err == Nil ==> succeeded == Effect(old(server), step).Written? && header == Rev(server)
    {
      succeeded := Effect(server, step).Written?;
      if fault != LostRequest {
        server := Exec(server, step);
      }
      header := Rev(server);
      err := if fault == Healthy && step.key != [] then Nil else Unavailable;
    }

    method Get(key: Key, fault: Fault) returns (v: Value, err: Error)
      requires Valid(server)
      ensures fault != Healthy || key == [] ==> err == Unavailable
      ensures fault == Healthy && key != [] ==>
                v.modified == ModRevision(server, key) && (err == Nil <==> v.modified > 0) && err in {Nil, NotFound}
      ensures err == Nil ==> key in Current(server)
      ensures err == Nil ==> v == Value(key, Current(server)[key].data, Current(server)[key].modified)
      ensures err != Nil ==> v == ZeroValue
    {
      if fault != Healthy || key == [] {
        return ZeroValue, Unavailable;
      }
      if key in Current(server) {
        var kv := Current(server)[key];
        return Value(key, kv.data, kv.modified), Nil;
      }
      return ZeroValue, NotFound;
    }

    method Create(key: Key, data: Bytes, fault: Fault) returns (rev: nat, err: Error)
      requires Valid(server)
      modifies this
      ensures Valid(server) && server == After(old(server), Cas(key, 0, data), fault)
      ensures (rev, err) == Answer(old(server), Cas(key, 0, data), fault)
      ensures err == Nil <==> fault == Healthy && key != [] && Lookup(old(server), key).None?
      ensures err == Nil ==> Lookup(server, key) == Some(Stored(data, rev))
      ensures err == Conflict ==> server == old(server)
      ensures forall k :: k != key ==> Lookup(server, k) == Lookup(old(server), k)
    {
      var succeeded, header, e := Commit(Cas(key, 0, data), fault);
      if e != Nil {
        return 0, e;
      }
      if !succeeded {
        return 0, Conflict;
      }
      return header, Nil;
    }

    method Update(key: Key, revision: nat, data: Bytes, fault: Fault) returns (rev: nat, err: Error)
      requires Valid(server)
      modifies this
      ensures Valid(server) && server == After(old(server), Cas(key, revision, data), fault)
      ensures (rev, err) == Answer(old(server), Cas(key, revision, data), fault)
      ensures err == Nil <==> fault == Healthy && key != [] && ModRevision(old(server), key) == revision
      ensures err == Nil ==> Lookup(server, key) == Some(Stored(data, rev))
      ensures err == Conflict ==> server == old(server)
      ensures forall k :: k != key ==> Lookup(server, k) == Lookup(old(server), k)
    {
      var succeeded, header, e := Commit(Cas(key, revision, data), fault);
      if e != Nil {
        return 0, e;
      }
      if !succeeded {
        return 0, Conflict;
      }
      return header, Nil;
    }

    method PutAtRevision(key: Key, revision: int, data: Bytes, fault: Fault) returns (rev: nat, err: Error)
      requires Valid(server)
      modifies this
      ensures Valid(server)
      ensures var step := Cas(key, if revision <= 0 then 0 else revision, data);
              server == After(old(server), step, fault) && (rev, err) == Answer(old(server), step, fault)
      ensures err == Nil <==>
                && fault == Healthy && key != []
                && ModRevision(old(server), key) == if revision <= 0 then 0 else revision
      ensures err == Nil ==> Lookup(server, key) == Some(Stored(data, rev))
      ensures err == Conflict ==> server == old(server)
      ensures forall k :: k != key ==> Lookup(server, k) == Lookup(old(server), k)
    {
      if revision <= 0 {
        rev, err := Create(key, data, fault);
      } else {
        rev, err := Update(key, revision, data, fault);
      }
    }

    /** Put is one read and one conditional write that names what the read saw; the steps of other
        clients fall in between. */
    method Put(key: Key, data: Bytes, readFault: Fault, others: seq<Step>, fault: Fault) returns (rev: nat, err: Error)
      requires Valid(server)
      modifies this
      ensures Valid(server)
      ensures readFault != Healthy || key == [] ==> server == Run(old(server), others) && err == Unavailable
      ensures readFault == Healthy && key != [] ==>
                var seen := Run(old(server), others);
                var step := Cas(key, ModRevision(old(server), key), data);
                server == After(seen, step, fault) && (rev, err) == Answer(seen, step, fault)
      ensures err == Nil <==>
                && readFault == Healthy && fault == Healthy && key != []
                && ModRevision(Run(old(server), others), key) == ModRevision(old(server), key)
      ensures err == Nil ==> Lookup(server, key) == Some(Stored(data, rev))
      ensures err == Conflict ==> server == Run(old(server), others)
      ensures forall k :: k != key ==> Lookup(server, k) == Lookup(Run(old(server), others), k)
    {
      var val, e := Get(key, readFault);
      server := Run(server, others);
      if e != Nil && e != NotFound {
        return 0, e;
      }
      if val.modified == 0 {
        rev, err := Create(key, data, fault);
      } else {
        rev, err := Update(key, val.modified, data, fault);
      }
    }

    method Delete(key: Key, fault: Fault) returns (err: Error)
      requires Valid(server)
      modifies this
      ensures Valid(server) && server == After(old(server), Remove(key), fault)
      ensures fault != LostRequest ==> key !in Current(server)
      ensures err == Nil <==> fault == Healthy && key != []
      ensures forall k :: k != key ==> Lookup(server, k) == Lookup(old(server), k)
    {
      if fault != LostRequest {
        assert key in Current(server) ==> key in Victims(server, Remove(key));
        server := Exec(server, Remove(key));
      }
      err := if fault == Healthy && key != [] then Nil else Unavailable;
    }

    method DeletePrefix(prefix: Key, fault: Fault) returns (err: Error)
      requires Valid(server)
      modifies this
      ensures Valid(server) && server == After(old(server), RemovePrefix(prefix), fault)
      ensures fault != LostRequest ==> forall k :: prefix <= k ==> Lookup(server, k).None?
      ensures err == Nil <==> fault == Healthy
      ensures forall k :: !(prefix <= k) ==> Lookup(server, k) == Lookup(old(server), k)
    {
      if fault != LostRequest {
        assert forall k :: k in Current(server) && prefix <= k ==> k in Victims(server, RemovePrefix(prefix));
        server := Exec(server, RemovePrefix(prefix));
      }
      err := if fault == Healthy then Nil else Unavailable;
    }
  }
}
