/**
 * The data-definition registry the compiler keeps for states and, separately,
 * for events: which payload type each name was declared with.  Its source,
 * macros/src/parser/data.rs, is not part of this model; `Collect` follows the
 * rule this model assumes for the registry (an unseen name is recorded, the same
 * declaration again changes nothing, a different one is refused).
 */
module Data {
  import opened Types

  /** Every name seen so far, with the payload type (or none) it was declared with. */
  datatype DataDefinitions = DataDefinitions(declared: map<string, Option<Ty>>) {

    /** The name was declared with a payload type (`data_types.contains_key`). */
    predicate HasData(name: string)
    {
      name in declared && declared[name].Some?
    }

    /** The payload type of a name, if it has one (`data_types.get(name).cloned()`). */
    function TypeOf(name: string): (r: Option<Ty>)
      ensures r.Some? <==> HasData(name)
    {
      if name in declared then declared[name] else None
    }
  }

  const NoDefinitions := DataDefinitions(map[])

  /** Records one declaration of `name`, or fails if it contradicts an earlier one. */
  function Collect(dd: DataDefinitions, name: string, ty: Option<Ty>): (r: Result<DataDefinitions, CompileError>)
    ensures r.Ok? <==> (name in dd.declared ==> dd.declared[name] == ty)
    ensures r.Ok? ==> r.value.declared.Keys == dd.declared.Keys + {name} && r.value.declared[name] == ty &&
                      forall n :: n in dd.declared ==> r.value.declared[n] == dd.declared[n]
    ensures r.Err? ==> r.error == ConflictingDefinition(name)
  {
    if name in dd.declared && dd.declared[name] != ty then Err(ConflictingDefinition(name))
    else Ok(DataDefinitions(dd.declared[name := ty]))
  }
}
