/** Config maps and secrets behind the API server. */
module ObjectStore {
  import opened Kubernetes
  import opened GlobalConfigRepo

  datatype ObjectName = ConfigMap(name: string) | Secret(name: string)

  /** The data of a config map or secret. Go decodes an object without data to a nil map: reading from it
      gives empty values, writing to it panics. */
  datatype Data = Nil | Entries(m: map<string, string>)

  function Read(d: Data, key: string): string {
    if d.Entries? && key in d.m then d.m[key] else ""
  }

  type Objects = map<ObjectName, Data>

  /** The two stores differ at most in `o`. */
  ghost predicate SameExcept(before: Objects, after: Objects, o: ObjectName) {
    forall x | x != o :: (x in before <==> x in after) && (x in before ==> before[x] == after[x])
  }

  class Cluster {
    const net: Network
    var objects: Objects

    constructor (net: Network, objects: Objects)
      ensures this.net == net && this.objects == objects
    {
      this.net := net;
      this.objects := objects;
    }

    method Get(o: ObjectName) returns (r: Result<Data>)
      modifies net
      ensures net.calls == old(net.calls) + 1
      ensures net.faults(old(net.calls)).Injected? ==> r == Err(net.faults(old(net.calls)).error)
      ensures r.Ok? ==> o in objects && objects[o] == r.value
      ensures net.faults(old(net.calls)).NoFault? ==> r == if o in objects then Ok(objects[o]) else Err(NotFound)
    {
      var f := net.Next();
      r := if f.Injected? then Err(f.error) else if o !in objects then Err(NotFound) else Ok(objects[o]);
    }

    method Create(o: ObjectName, d: Data) returns (r: Result<()>)
      modifies net, `objects
      ensures net.calls == old(net.calls) + 1
      ensures net.faults(old(net.calls)).Injected? ==> r == Err(net.faults(old(net.calls)).error)
      ensures objects == old(objects) || (o !in old(objects) && objects == old(objects)[o := d])
      ensures r.Ok? ==> o !in old(objects) && objects == old(objects)[o := d]
      ensures net.faults(old(net.calls)).NoFault? ==> r == if o in old(objects) then Err(AlreadyExists) else Ok(())
    {
      var f := net.Next();
      var possible := o !in objects;
      if possible && (f.NoFault? || f.effective) {
        objects := objects[o := d];
      }
      r := if f.Injected? then Err(f.error) else if possible then Ok(()) else Err(AlreadyExists);
    }

    method Update(o: ObjectName, d: Data) returns (r: Result<()>)
      modifies net, `objects
      ensures net.calls == old(net.calls) + 1
      ensures net.faults(old(net.calls)).Injected? ==> r == Err(net.faults(old(net.calls)).error)
      ensures objects == old(objects) || (o in old(objects) && objects == old(objects)[o := d])
      ensures r.Ok? ==> o in old(objects) && objects == old(objects)[o := d]
      ensures net.faults(old(net.calls)).NoFault? ==> r == if o in old(objects) then Ok(()) else Err(NotFound)
    {
      var f := net.Next();
      var possible := o in objects;
      if possible && (f.NoFault? || f.effective) {
        objects := objects[o := d];
      }
      r := if f.Injected? then Err(f.error) else if possible then Ok(()) else Err(NotFound);
    }

    method Delete(o: ObjectName) returns (r: Result<()>)
      modifies net, `objects
      ensures net.calls == old(net.calls) + 1
      ensures net.faults(old(net.calls)).Injected? ==> r == Err(net.faults(old(net.calls)).error)
      ensures objects == old(objects) || objects == old(objects) - {o}
      ensures r.Ok? ==> o !in objects
      ensures net.faults(old(net.calls)).NoFault? ==>
                o !in objects && r == if o in old(objects) then Ok(()) else Err(NotFound)
    {
      var f := net.Next();
      var possible := o in objects;
      if possible && (f.NoFault? || f.effective) {
        objects := objects - {o};
      }
      r := if f.Injected? then Err(f.error) else if possible then Ok(()) else Err(NotFound);
    }
  }
}
