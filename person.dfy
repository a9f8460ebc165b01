/**
 * The roster record: a mutable `Person` whose `count` and `matching_names` the
 * screening loop updates in place, and the Python list object `matching_names`
 * refers to.
 *
 * The constructor here takes a `surname`: the importer passes one and the
 * screening loop reads one. The constructor as written in the repository has no
 * such parameter; `PersonInitAsWritten` and the lemmas at the end record what
 * that does to the import call.
 */
module PersonModel {
  import opened Wrappers

  /** A Python `list` of strings: an object of its own, which two persons may share. */
  class NameList {
    var items: seq<string>

    constructor (items: seq<string>)
      ensures this.items == items
    {
      this.items := items;
    }

    /** `list.append(x)`. */
    method Append(x: string)
      modifies this
      ensures items == old(items) + [x]
    {
      items := items + [x];
    }
  }

  class Person {
    var name: string
    var surname: string
    var oib: string
    var address: string
    var count: int
    var matchingNames: NameList

    /**
     * `Person(name, surname, oib, address, count=0, matching_names=None)`: the
     * strings are stored as passed; a supplied list is stored as that very object,
     * and an omitted one becomes a new empty list, shared with no other person.
     */
    constructor (name: string, surname: string, oib: string, address: string,
                 count: int := 0, matchingNames: Option<NameList> := None)
      ensures this.name == name && this.surname == surname
      ensures this.oib == oib && this.address == address
      ensures this.count == count
      ensures matchingNames.Some? ==> this.matchingNames == matchingNames.value
      ensures matchingNames.None? ==> fresh(this.matchingNames) && this.matchingNames.items == []
    {
      this.name := name;
      this.surname := surname;
      this.oib := oib;
      this.address := address;
      this.count := count;
      if matchingNames.Some? {
        this.matchingNames := matchingNames.value;
      } else {
        this.matchingNames := new NameList([]);
      }
    }
  }

  /** Two persons built without a list never share one. */
  method FreshListsNotShared() returns (shared: bool)
    ensures !shared
  {
    var a := new Person("Ivan", "Petrov", "12345678901", "Zagreb");
    var b := new Person("Ana", "Horvat", "10987654321", "Split");
    shared := a.matchingNames == b.matchingNames;
  }

  /** A list handed to two persons is the same object in both. */
  method SuppliedListShared() returns (shared: bool)
    ensures shared
  {
    var list := new NameList(["PETROV Ivan"]);
    var a := new Person("Ivan", "Petrov", "12345678901", "Zagreb", 0, Some(list));
    var b := new Person("Ana", "Horvat", "10987654321", "Split", 0, Some(list));
    shared := a.matchingNames == b.matchingNames && a.matchingNames == list;
  }

  // ---------------------------------------------------------------------------
  // Binding the importer's keyword call to the constructor's parameters
  // ---------------------------------------------------------------------------

  /** A parameter of a Python function after `self`: its name, and whether it has a default. */
  datatype Parameter = Parameter(name: string, hasDefault: bool)

  /** `Person.__init__(self, name, oib, address, count=0, matching_names=None)` as written. */
  const PersonInitAsWritten: seq<Parameter> :=
    [Parameter("name", false), Parameter("oib", false), Parameter("address", false),
     Parameter("count", true), Parameter("matching_names", true)]

  /** The constructor the importer and the screening loop evidently expect, with `surname`. */
  const PersonInit: seq<Parameter> :=
    [Parameter("name", false), Parameter("surname", false), Parameter("oib", false),
     Parameter("address", false), Parameter("count", true), Parameter("matching_names", true)]

  /** The keywords of the importer's call `Person(name=..., surname=..., oib=..., address=...)`. */
  const ImportCallKeywords: seq<string> := ["name", "surname", "oib", "address"]

  function ParameterNames(params: seq<Parameter>): (r: seq<string>)
    ensures |r| == |params|
    ensures forall i :: 0 <= i < |params| ==> r[i] == params[i].name
  {
    if params == [] then [] else [params[0].name] + ParameterNames(params[1..])
  }

  /**
   * A keyword-only call binds (raises no `TypeError`) when every keyword names a
   * parameter and every parameter without a default is given a keyword.
   */
  predicate KeywordCallBinds(params: seq<Parameter>, keywords: seq<string>) {
    && (forall k :: 0 <= k < |keywords| ==> keywords[k] in ParameterNames(params))
    && (forall i :: 0 <= i < |params| && !params[i].hasDefault ==> params[i].name in keywords)
  }

  /** As written, the importer's call raises: `surname` is not a parameter of the constructor. */
  lemma ImportCallFailsAsWritten()
    ensures "surname" in ImportCallKeywords && "surname" !in ParameterNames(PersonInitAsWritten)
    ensures !KeywordCallBinds(PersonInitAsWritten, ImportCallKeywords)
  {
    assert ImportCallKeywords[1] == "surname";
  }

  /** With the `surname` parameter the same call binds. */
  lemma ImportCallBinds()
    ensures KeywordCallBinds(PersonInit, ImportCallKeywords)
  {
    var names := ParameterNames(PersonInit);
    forall k | 0 <= k < |ImportCallKeywords| ensures ImportCallKeywords[k] in names {
      assert ImportCallKeywords[k] == PersonInit[k].name == names[k];
    }
    forall i | 0 <= i < |PersonInit| && !PersonInit[i].hasDefault ensures PersonInit[i].name in ImportCallKeywords {
      assert PersonInit[i].name == ImportCallKeywords[i];
    }
  }
}
