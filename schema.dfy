/** The entity registry that stands for `Class.forName("com.example.dynamicquery.model." + name)`
    and the JPA metamodel behind Path.get and From.join: each entity name maps to its
    attributes, each attribute either basic or an association to another entity. */
module Schema {
  import opened Wrappers

  datatype AttrKind = Basic | Association(target: string)

  type EntityType = map<string, AttrKind>

  type Registry = map<string, EntityType>

  /** Every association leads to a registered entity, as a compiled entity class guarantees. */
  predicate ValidRegistry(reg: Registry)
  {
    forall e, a :: e in reg && a in reg[e] && reg[e][a].Association? ==> reg[e][a].target in reg
  }

  /** The kind of attribute `name` of entity `entity`, if it has one. */
  function AttrOf(reg: Registry, entity: string, name: string): Option<AttrKind>
  {
    if entity in reg && name in reg[entity] then Some(reg[entity][name]) else None
  }

  /** The application's two entities: Employee, with a many-to-one association to Department. */
  function ExampleRegistry(): Registry
  {
    map[
      "Employee" := map[
        "id" := Basic, "name" := Basic, "salary" := Basic, "joiningDate" := Basic,
        "department" := Association("Department"), "active" := Basic],
      "Department" := map["id" := Basic, "name" := Basic]
    ]
  }

  lemma ExampleRegistryIsValid()
    ensures ValidRegistry(ExampleRegistry())
  {
  }
}
