/** Accounting registers as a program fills them in, and the checks they pass before they are sent. */
module Registers {

  datatype Class = Class(name: string, bases: seq<Class>)

  datatype FieldValue = Undefined | Text(text: string) | Number(number: real)

  /** A register of a type with `keyCount` key fields, the rest being value fields; `ownCheck` is what the check
      of the type itself says. */
  datatype Register = Register(cls: Class, keyCount: nat, values: seq<FieldValue>, start: Time, end: Time,
                               ownCheck: bool)

  datatype Time = Unset | NoDate | Date(epoch: int)

  datatype Record = Record(typeName: string, startTime: int, endTime: int, values: seq<FieldValue>)

  const BASE_TYPE := "BaseAccountingType"

  /** Going up from the class by the bases at the given positions, one arrives at a class named like the base type. */
  predicate LeadsToBase(c: Class, path: seq<nat>)
    decreases |path|
  {
    && path != [] && path[0] < |c.bases|
    && (if |path| == 1 then c.bases[path[0]].name == BASE_TYPE else LeadsToBase(c.bases[path[0]], path[1..]))
  }

  ghost predicate Descends(c: Class) {
    exists path :: LeadsToBase(c, path)
  }

  lemma DescendsBy(c: Class, i: nat)
    requires i < |c.bases| && (c.bases[i].name == BASE_TYPE || Descends(c.bases[i]))
    ensures Descends(c)
  {
    if c.bases[i].name == BASE_TYPE {
      assert LeadsToBase(c, [i]);
    } else {
      var path :| LeadsToBase(c.bases[i], path);
      assert ([i] + path)[1..] == path;
      assert LeadsToBase(c, [i] + path);
    }
  }

  lemma StartsUp(c: Class, path: seq<nat>)
    requires LeadsToBase(c, path)
    ensures path[0] < |c.bases| && (c.bases[path[0]].name == BASE_TYPE || Descends(c.bases[path[0]]))
  {}

  /** True exactly for proper descendants of the base type. */
  method CheckBaseType(c: Class) returns (ok: bool)
    ensures ok <==> Descends(c)
    decreases c
  {
    for i := 0 to |c.bases|
      invariant forall path :: LeadsToBase(c, path) ==> path[0] >= i
    {
      if c.bases[i].name == BASE_TYPE {
        DescendsBy(c, i);
        return true;
      }
      var above := CheckBaseType(c.bases[i]);
      if above {
        DescendsBy(c, i);
        return true;
      }
      forall path | LeadsToBase(c, path) ensures path[0] != i {
        StartsUp(c, path);
      }
    }
    ok := false;
  }

  predicate ValuesFit(r: Register) {
    forall i :: 0 <= i < |r.values| ==> !r.values[i].Undefined? && (i >= r.keyCount ==> r.values[i].Number?)
  }

  /** Every field has a value, every value field a number, and both times are dates. */
  predicate Fits(r: Register) {
    ValuesFit(r) && r.start.Date? && r.end.Date? && r.ownCheck
  }

  method CheckValues(r: Register) returns (ok: bool)
    ensures ok <==> Fits(r)
  {
    ok := true;
    for i := 0 to |r.values|
      invariant ok <==> forall j :: 0 <= j < i ==> !r.values[j].Undefined? && (j >= r.keyCount ==> r.values[j].Number?)
    {
      if r.values[i].Undefined? { ok := false; }
      if i >= r.keyCount && !r.values[i].Number? { ok := false; }
    }
    if !ok || !r.start.Date? || !r.end.Date? { return false; }
    ok := r.ownCheck;
  }

  function ToRecord(r: Register): Record
    requires Fits(r)
  {
    Record(r.cls.name, r.start.epoch, r.end.epoch, r.values)
  }
}
