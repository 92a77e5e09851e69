/**
 * The field lookup table: a case-insensitive index of work-item fields by
 * reference name and by display name, and a process-wide counter that gives
 * every table its own id.
 */
module Fields {
  import opened Wrappers

  /** The two attributes of a work-item field that the lookup uses. */
  datatype WorkItemField = WorkItemField(name: string, referenceName: string)

  /** Lower-casing, over the ASCII letters. */
  function LowerChar(c: char): (d: char)
    ensures 'A' <= c <= 'Z' ==> 'a' <= d <= 'z' && d as int - c as int == 32
    ensures !('A' <= c <= 'Z') ==> d == c
  {
    if 'A' <= c <= 'Z' then (c as int + 32) as char else c
  }

  function Lower(s: string): (r: string)
    ensures |r| == |s| && forall i :: 0 <= i < |s| ==> r[i] == LowerChar(s[i])
  {
    seq(|s|, i requires 0 <= i < |s| => LowerChar(s[i]))
  }

  lemma LowerIdempotent(s: string)
    ensures Lower(Lower(s)) == Lower(s)
  {
  }

  /** Field `f` is written under key `k` by the constructor loop. */
  predicate Writes(f: WorkItemField, k: string) {
    k == Lower(f.referenceName) || k == Lower(f.name)
  }

  /**
   * The dictionary after the constructor loop has run over `values`: per field,
   * first under its lower-cased reference name, then under its lower-cased name.
   */
  function BuildLookup(values: seq<WorkItemField>): map<string, WorkItemField> {
    if values == [] then map[]
    else
      var f := values[|values| - 1];
      BuildLookup(values[..|values| - 1])[Lower(f.referenceName) := f][Lower(f.name) := f]
  }

  /** The keys every field of `values` is written under. */
  function Keys(values: seq<WorkItemField>): (ks: set<string>)
    ensures forall k :: k in ks <==> exists i :: 0 <= i < |values| && Writes(values[i], k)
  {
    var ks := (set f | f in values :: Lower(f.referenceName)) + (set f | f in values :: Lower(f.name));
    assert forall k :: k in ks ==> exists i :: 0 <= i < |values| && Writes(values[i], k);
    ks
  }

  /** The key set is exactly the lower-cased reference names and names of the fields. */
  lemma {:induction false} BuildLookupKeys(values: seq<WorkItemField>)
    ensures BuildLookup(values).Keys == Keys(values)
  {
    if values != [] {
      var init := values[..|values| - 1];
      BuildLookupKeys(init);
      forall k ensures k in Keys(values) <==> k in Keys(init) || Writes(values[|values| - 1], k) {
        if k in Keys(values) {
          var i :| 0 <= i < |values| && Writes(values[i], k);
          if i < |values| - 1 { assert init[i] == values[i]; }
        }
        if k in Keys(init) {
          var i :| 0 <= i < |init| && Writes(init[i], k);
          assert values[i] == init[i];
        }
      }
    }
  }

  /** Later writes win: a key holds the last field in list order that writes it. */
  lemma {:induction false} LastWriteWins(values: seq<WorkItemField>, i: nat, k: string)
    requires i < |values| && Writes(values[i], k)
    requires forall j :: i < j < |values| ==> !Writes(values[j], k)
    ensures k in BuildLookup(values) && BuildLookup(values)[k] == values[i]
  {
    if i < |values| - 1 {
      var init := values[..|values| - 1];
      LastWriteWins(init, i, k);
    }
  }

  /** What `getField` reads: the entry under the lower-cased argument, if any. */
  function Resolve(lookup: map<string, WorkItemField>, refOrName: string): Option<WorkItemField> {
    var key := Lower(refOrName);
    if key in lookup then Some(lookup[key]) else None
  }

  /** What `equalFields` returns: both resolve, to fields with the same name. */
  predicate SameField(lookup: map<string, WorkItemField>, refOrName1: string, refOrName2: string) {
    var f1 := Resolve(lookup, refOrName1);
    var f2 := Resolve(lookup, refOrName2);
    f1.Some? && f2.Some? && f1.value.name == f2.value.name
  }

  /** Resolution ignores case. */
  lemma ResolveIgnoresCase(lookup: map<string, WorkItemField>, s: string)
    ensures Resolve(lookup, s) == Resolve(lookup, Lower(s))
  {
    LowerIdempotent(s);
  }

  /**
   * On a table built from `values`, a string resolves exactly when its lower-cased
   * form is a lower-cased reference name or name of some field.
   */
  lemma ResolveBuilt(values: seq<WorkItemField>, s: string)
    ensures Resolve(BuildLookup(values), s).Some? <==> Lower(s) in Keys(values)
  {
    BuildLookupKeys(values);
  }

  /** `equalFields` is false when either side does not resolve, symmetric, and reflexive exactly on resolvable strings. */
  lemma SameFieldProperties(lookup: map<string, WorkItemField>, a: string, b: string)
    ensures Resolve(lookup, a).None? || Resolve(lookup, b).None? ==> !SameField(lookup, a, b)
    ensures SameField(lookup, a, b) == SameField(lookup, b, a)
    ensures SameField(lookup, a, a) <==> Resolve(lookup, a).Some?
  {
  }

  // ---------------------------------------------------------------------------
  // The dictionary as the source declares it: a plain object literal, whose
  // property reads also see what it inherits from Object.prototype.

  /** A property read on the dictionary object: an own entry, the inherited `constructor`, or undefined. */
  datatype PropertyValue = OwnEntry(field: WorkItemField) | InheritedConstructor | Undefined

  function ReadProperty(lookup: map<string, WorkItemField>, key: string): PropertyValue {
    if key in lookup then OwnEntry(lookup[key])
    else if key == "constructor" then InheritedConstructor
    else Undefined
  }

  /** `getField` as written: the property read under the lower-cased argument. */
  function GetFieldAsWritten(lookup: map<string, WorkItemField>, refOrName: string): PropertyValue {
    ReadProperty(lookup, Lower(refOrName))
  }

  /** The `name` of a read value; the inherited constructor is the function `Object`. */
  function NameOf(v: PropertyValue): Option<string> {
    match v
    case OwnEntry(f) => Some(f.name)
    case InheritedConstructor => Some("Object")
    case Undefined => None
  }

  /** `equalFields` as written: both reads are truthy and their names are equal. */
  predicate EqualFieldsAsWritten(lookup: map<string, WorkItemField>, refOrName1: string, refOrName2: string) {
    var v1 := GetFieldAsWritten(lookup, refOrName1);
    var v2 := GetFieldAsWritten(lookup, refOrName2);
    !v1.Undefined? && !v2.Undefined? && NameOf(v1) == NameOf(v2)
  }

  /** Own entries read the same either way, so the two models differ only on inherited keys. */
  lemma AsWrittenAgreesOnOwnKeys(lookup: map<string, WorkItemField>, s: string)
    requires Lower(s) != "constructor"
    ensures GetFieldAsWritten(lookup, s) == match Resolve(lookup, s) case Some(f) => OwnEntry(f) case None => Undefined
  {
  }

  /**
   * On any table where no field is named or referenced as "constructor",
   * `getField("Constructor")` as written returns the inherited Object
   * constructor and `equalFields("constructor", "CONSTRUCTOR")` is true, while
   * the key was never written: `Resolve` gives absent and `SameField` false.
   */
  lemma ConstructorKeyResolvesAsWritten(values: seq<WorkItemField>)
    requires forall i :: 0 <= i < |values| ==> !Writes(values[i], "constructor")
    ensures GetFieldAsWritten(BuildLookup(values), "Constructor") == InheritedConstructor
    ensures EqualFieldsAsWritten(BuildLookup(values), "constructor", "CONSTRUCTOR")
    ensures Resolve(BuildLookup(values), "Constructor").None?
    ensures !SameField(BuildLookup(values), "constructor", "CONSTRUCTOR")
  {
    LowerConstructor();
    BuildLookupKeys(values);
    assert "constructor" !in Keys(values);
  }

  lemma LowerConstructor()
    ensures Lower("Constructor") == "constructor"
    ensures Lower("CONSTRUCTOR") == "constructor"
    ensures Lower("constructor") == "constructor"
  {
  }

  /** `FieldLookup._counter`: the next id to hand out. */
  class LookupCounter {
    var next: nat

    constructor ()
      ensures next == 0
    {
      next := 0;
    }
  }

  class FieldLookup {
    const values: seq<WorkItemField>
    const lookupId: nat
    var lookup: map<string, WorkItemField>

    ghost predicate Valid()
      reads this
    {
      lookup == BuildLookup(values)
    }

    /** Takes the next id from the counter and indexes every field under both of its names. */
    constructor (values: seq<WorkItemField>, counter: LookupCounter)
      modifies counter
      ensures Valid() && this.values == values
      ensures lookupId == old(counter.next) && counter.next == old(counter.next) + 1
    {
      this.values := values;
      this.lookupId := counter.next;
      this.lookup := map[];
      new;
      counter.next := counter.next + 1;
      for i := 0 to |values|
        invariant lookup == BuildLookup(values[..i])
        invariant counter.next == old(counter.next) + 1
      {
        var field := values[i];
        lookup := lookup[Lower(field.referenceName) := field];
        lookup := lookup[Lower(field.name) := field];
        assert values[..i + 1][..i] == values[..i];
      }
      assert values[..|values|] == values;
    }

    method GetField(refOrName: string) returns (field: Option<WorkItemField>)
      requires Valid()
      ensures field == Resolve(BuildLookup(values), refOrName)
      ensures field.Some? <==> Lower(refOrName) in Keys(values)
    {
      ResolveBuilt(values, refOrName);
      var key := Lower(refOrName);
      if key in lookup {
        field := Some(lookup[key]);
      } else {
        field := None;
      }
    }

    method EqualFields(refOrName1: string, refOrName2: string) returns (equal: bool)
      requires Valid()
      ensures equal == SameField(BuildLookup(values), refOrName1, refOrName2)
      ensures equal ==> Lower(refOrName1) in Keys(values) && Lower(refOrName2) in Keys(values)
    {
      var field1 := GetField(refOrName1);
      var field2 := GetField(refOrName2);
      equal := field1.Some? && field2.Some? && field1.value.name == field2.value.name;
    }
  }

  /** Starting from a fresh counter, successive tables get the ids 0, 1, 2. */
  method ConsecutiveIds(a: seq<WorkItemField>, b: seq<WorkItemField>, c: seq<WorkItemField>)
    returns (x: FieldLookup, y: FieldLookup, z: FieldLookup)
    ensures x.lookupId == 0 && y.lookupId == 1 && z.lookupId == 2
    ensures x.values == a && y.values == b && z.values == c
  {
    var counter := new LookupCounter();
    x := new FieldLookup(a, counter);
    y := new FieldLookup(b, counter);
    z := new FieldLookup(c, counter);
  }
}
