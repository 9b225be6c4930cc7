// Schema/PathItem.php: `getOperations`, the operations a path item defines,
// keyed by HTTP method in a fixed order.

module PathItems {
  import opened Wrappers
  import opened OpenApiSchema

  /** The method names `getOperations` walks, in its order. */
  const OperationMethods: seq<string> := ["get", "put", "post", "delete", "options", "head", "patch", "trace"]

  /** `$this->{$method}` for one of the eight method fields. */
  function Field(p: PathItem, m: string): Option<Operation>
  {
    match m
    case "get" => p.get
    case "put" => p.put
    case "post" => p.post
    case "delete" => p.delete
    case "options" => p.options
    case "head" => p.head
    case "patch" => p.patch
    case "trace" => p.trace
    case _ => None
  }

  /** The operations found among `methods`, in that order. */
  function OperationsAmong(p: PathItem, methods: seq<string>): seq<(string, Operation)>
    decreases |methods|
  {
    if methods == [] then []
    else
      var rest := OperationsAmong(p, methods[1..]);
      match Field(p, methods[0])
      case Some(op) => [(methods[0], op)] + rest
      case None => rest
  }

  /** What `getOperations` returns. */
  function Operations(p: PathItem): seq<(string, Operation)>
  {
    OperationsAmong(p, OperationMethods)
  }

  /** The entry a single method contributes: its operation, if the field holds one. */
  function EntryOf(p: PathItem, m: string): seq<(string, Operation)>
  {
    match Field(p, m)
    case Some(op) => [(m, op)]
    case None => []
  }

  /** Walking one more method appends that method's entry. */
  lemma {:induction false} OperationsAmongAppend(p: PathItem, methods: seq<string>, m: string)
    ensures OperationsAmong(p, methods + [m]) == OperationsAmong(p, methods) + EntryOf(p, m)
    decreases |methods|
  {
    if methods == [] {
      assert OperationsAmong(p, [m][1..]) == [];
    } else {
      assert (methods + [m])[1..] == methods[1..] + [m];
      OperationsAmongAppend(p, methods[1..], m);
    }
  }

  /** `PathItem::getOperations`: the loop over the method list, keeping the fields that hold an operation. */
  method GetOperations(p: PathItem) returns (ops: seq<(string, Operation)>)
    ensures ops == Operations(p)
  {
    ops := [];
    var i := 0;
    while i < |OperationMethods|
      invariant 0 <= i <= |OperationMethods|
      invariant ops == OperationsAmong(p, OperationMethods[..i])
    {
      var m := OperationMethods[i];
      assert OperationMethods[..i + 1] == OperationMethods[..i] + [m];
      OperationsAmongAppend(p, OperationMethods[..i], m);
      var field := Field(p, m);
      if field.Some? {
        ops := ops + [(m, field.value)];
      }
      i := i + 1;
    }
    assert OperationMethods[..i] == OperationMethods;
  }

  /** The position of a method name in the walking order. */
  function Rank(m: string): nat
  {
    if m == "get" then 0 else if m == "put" then 1 else if m == "post" then 2
    else if m == "delete" then 3 else if m == "options" then 4 else if m == "head" then 5
    else if m == "patch" then 6 else 7
  }

  /** Every listed entry is a method of the list whose field holds that operation. */
  lemma {:induction false} OperationsAmongSound(p: PathItem, methods: seq<string>)
    ensures |OperationsAmong(p, methods)| <= |methods|
    ensures forall i :: 0 <= i < |OperationsAmong(p, methods)| ==>
      OperationsAmong(p, methods)[i].0 in methods
      && Field(p, OperationsAmong(p, methods)[i].0) == Some(OperationsAmong(p, methods)[i].1)
    decreases |methods|
  {
    if methods != [] {
      OperationsAmongSound(p, methods[1..]);
      forall m | m in methods[1..] ensures m in methods { }
    }
  }

  /** Every method of the list whose field holds an operation is listed. */
  lemma {:induction false} OperationsAmongComplete(p: PathItem, methods: seq<string>, m: string)
    requires m in methods && Field(p, m).Some?
    ensures exists i :: 0 <= i < |OperationsAmong(p, methods)| && OperationsAmong(p, methods)[i].0 == m
    decreases |methods|
  {
    var ops := OperationsAmong(p, methods);
    if methods[0] == m {
      assert ops[0].0 == m;
    } else {
      OperationsAmongComplete(p, methods[1..], m);
      var rest := OperationsAmong(p, methods[1..]);
      var i :| 0 <= i < |rest| && rest[i].0 == m;
      if Field(p, methods[0]).Some? {
        assert ops[i + 1].0 == m;
      } else {
        assert ops[i].0 == m;
      }
    }
  }

  /** A list walked in increasing rank yields entries in increasing rank. */
  lemma {:induction false} OperationsAmongOrdered(p: PathItem, methods: seq<string>)
    requires forall i, j :: 0 <= i < j < |methods| ==> Rank(methods[i]) < Rank(methods[j])
    ensures forall i, j :: 0 <= i < j < |OperationsAmong(p, methods)| ==>
      Rank(OperationsAmong(p, methods)[i].0) < Rank(OperationsAmong(p, methods)[j].0)
    decreases |methods|
  {
    if methods != [] {
      var tail := methods[1..];
      assert forall i, j :: 0 <= i < j < |tail| ==> Rank(tail[i]) < Rank(tail[j]) by {
        forall i, j | 0 <= i < j < |tail| ensures Rank(tail[i]) < Rank(tail[j]) {
          assert tail[i] == methods[i + 1] && tail[j] == methods[j + 1];
        }
      }
      OperationsAmongOrdered(p, tail);
      OperationsAmongSound(p, tail);
      var rest := OperationsAmong(p, tail);
      forall k | 0 <= k < |rest| ensures Rank(methods[0]) < Rank(rest[k].0) {
        var j :| 0 <= j < |tail| && tail[j] == rest[k].0;
        assert tail[j] == methods[j + 1];
      }
    }
  }

  /**
   * getOperations holds exactly the fields that hold an operation, each with
   * its own value, at most eight, in the order get, put, post, delete,
   * options, head, patch, trace.
   */
  lemma OperationsProperties(p: PathItem)
    ensures |Operations(p)| <= 8
    ensures forall i :: 0 <= i < |Operations(p)| ==> Field(p, Operations(p)[i].0) == Some(Operations(p)[i].1)
    ensures forall i, j :: 0 <= i < j < |Operations(p)| ==> Rank(Operations(p)[i].0) < Rank(Operations(p)[j].0)
    ensures forall m :: m in OperationMethods && Field(p, m).Some? ==>
      exists i :: 0 <= i < |Operations(p)| && Operations(p)[i].0 == m
  {
    OperationsAmongSound(p, OperationMethods);
    OperationsAmongOrdered(p, OperationMethods);
    forall m | m in OperationMethods && Field(p, m).Some?
      ensures exists i :: 0 <= i < |Operations(p)| && Operations(p)[i].0 == m
    {
      OperationsAmongComplete(p, OperationMethods, m);
      assert Operations(p) == OperationsAmong(p, OperationMethods);
    }
  }

  /** A path item without any operation yields an empty list. */
  lemma {:induction false} NoOperations(p: PathItem, methods: seq<string>)
    requires forall m :: m in methods ==> Field(p, m).None?
    ensures OperationsAmong(p, methods) == []
    decreases |methods|
  {
    if methods != [] {
      assert methods[0] in methods;
      forall m | m in methods[1..] ensures Field(p, m).None? {
        assert m in methods;
      }
      NoOperations(p, methods[1..]);
    }
  }
}
