/** Selecting the state attributes of one class. */
module ApiUtils {
  import opened Wrappers
  import opened Seqs
  import opened RobotModel

  /** The test `x.__class === clazz`. */
  function OfClass(clazz: AttributeClass): RobotAttribute -> bool
  {
    (a: RobotAttribute) => ClassOf(a) == clazz
  }

  /** `getAttributes(clazz, attributes)`: the attributes of that class in
      their order, or an error naming the class when there is none. The
      input is a value and is not changed. */
  function GetAttributes(clazz: AttributeClass, attributes: seq<RobotAttribute>): (r: Result<seq<RobotAttribute>, AttributeClass>)
    ensures r.Err? <==> forall a :: a in attributes ==> ClassOf(a) != clazz
    ensures r.Err? ==> r.error == clazz
    ensures r.Ok? ==> |r.value| > 0
    ensures r.Ok? ==> r.value == Filter(OfClass(clazz), attributes)
    ensures r.Ok? ==> forall a :: a in r.value <==> a in attributes && ClassOf(a) == clazz
  {
    var res := Filter(OfClass(clazz), attributes);
    if |res| == 0 then Err(clazz) else (assert res[0] in res; Ok(res))
  }

  /** `getAttributes(clazz, attributes)[0]` is the first attribute of that
      class in the input. */
  lemma GetAttributesFirst(clazz: AttributeClass, attributes: seq<RobotAttribute>)
    requires GetAttributes(clazz, attributes).Ok?
    ensures exists i :: 0 <= i < |attributes| && attributes[i] == GetAttributes(clazz, attributes).value[0] &&
              ClassOf(attributes[i]) == clazz && forall j :: 0 <= j < i ==> ClassOf(attributes[j]) != clazz
  {
    FirstOfFilter(OfClass(clazz), attributes);
  }
}
