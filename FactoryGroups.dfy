/**
 * The two versions of a factory group: FactoryGroupedClasses (current) and
 * FactoryClass (older). Each owns an insertion-ordered map from id to
 * descriptor, keeps ids unique, and generates the factory for the group.
 */
module FactoryGroups {
  import opened Results
  import opened Elements
  import opened Errors
  import opened Descriptors
  import opened ItemsMaps
  import opened Emitter

  class FactoryGroupedClasses {
    const qualifiedClassName: string
    var itemsMap: ItemsMap

    /** Every id is stored under itself, in an insertion-ordered map. */
    ghost predicate Valid()
      reads this
    {
      itemsMap.Valid() && KeyedById(itemsMap)
    }

    constructor (qualifiedClassName: string)
      ensures Valid()
      ensures this.qualifiedClassName == qualifiedClassName && itemsMap == Empty
    {
      this.qualifiedClassName := qualifiedClassName;
      itemsMap := Empty;
    }

    /**
     * Adds an annotated class. A taken id is a conflict naming the new class,
     * the id and the class that already uses it, and the map stays as it was;
     * otherwise the class is appended under its id.
     */
    method Add(toInsert: Descriptor) returns (r: Outcome<Error>)
      requires Valid()
      modifies this
      ensures Valid()
      ensures r.Fail? <==> toInsert.id in old(itemsMap.entries)
      ensures r.Fail? ==>
        && r.error == IdConflict(toInsert.element.qualifiedName, toInsert.id,
             old(itemsMap.entries)[toInsert.id].element.qualifiedName)
        && itemsMap == old(itemsMap)
      ensures r.Pass? ==>
        && itemsMap == old(itemsMap).Put(toInsert)
        && itemsMap.Values() == old(itemsMap.Values()) + [toInsert]
    {
      var existing := itemsMap.Get(toInsert.id);
      if existing.Some? {
        return Fail(IdConflict(toInsert.element.qualifiedName, toInsert.id,
          existing.value.element.qualifiedName));
      }
      itemsMap := itemsMap.Put(toInsert);
      r := Pass;
    }

    /**
     * Builds the factory source: the null check, one branch per member in
     * insertion order, the unknown-id throw. The class gets no modifier, so
     * it is package-private. The file is named by JavaFile from the package
     * and the factory's simple name; the qualified factory name computed on
     * the way is never used.
     */
    method GenerateCode(u: Universe) returns (src: FactorySource)
      requires Valid() && qualifiedClassName in u
      ensures src == FactoryFor(u, qualifiedClassName, itemsMap.Values())
    {
      var superClassName := u[qualifiedClassName];
      var factoryClassName := superClassName.simpleName + Suffix;
      var qualifiedFactoryClassName := qualifiedClassName + Suffix;
      var packageName := if superClassName.packageName == "" then None
                         else Some(superClassName.packageName);
      var body := [ThrowIfNull(NullIdMessage)];
      var values := itemsMap.Values();
      for i := 0 to |itemsMap.keys|
        invariant body == [ThrowIfNull(NullIdMessage)] + Branches(values[..i])
      {
        var item := itemsMap.entries[itemsMap.keys[i]];
        body := body + [ReturnNewIfEquals(item.id, item.element.qualifiedName)];
      }
      assert values[..|values|] == values;
      body := body + [ThrowUnknown(UnknownIdPrefix)];
      var fileName := if packageName.None? then factoryClassName
                      else packageName.value + "." + factoryClassName;
      assert fileName == FileName(superClassName);
      src := FactorySource(fileName, packageName, false, factoryClassName, qualifiedClassName, body);
    }
  }

  class FactoryClass {
    /** null until the first add. */
    var qualifiedClassName: Option<string>
    var itemsMap: ItemsMap

    ghost predicate Valid()
      reads this
    {
      && itemsMap.Valid() && KeyedById(itemsMap)
      && (qualifiedClassName.None? ==> itemsMap.keys == [])
    }

    constructor ()
      ensures Valid()
      ensures qualifiedClassName == None && itemsMap == Empty
    {
      qualifiedClassName := None;
      itemsMap := Empty;
    }

    /**
     * Adds an item. The group name is taken from the first item ever added
     * and never changes; a taken id returns the stored item and inserts
     * nothing, a free id inserts and returns null.
     */
    method Add(toInsert: Descriptor) returns (existing: Option<Descriptor>)
      requires Valid()
      modifies this
      ensures Valid()
      ensures qualifiedClassName ==
        if old(qualifiedClassName).None? then Some(toInsert.qualifiedGroupName)
        else old(qualifiedClassName)
      ensures existing == old(itemsMap).Get(toInsert.id)
      ensures itemsMap == PutIfAbsent(old(itemsMap), toInsert)
    {
      if qualifiedClassName.None? {
        qualifiedClassName := Some(toInsert.qualifiedGroupName);
      }
      existing := itemsMap.Get(toInsert.id);
      if existing.Some? {
        return;
      }
      itemsMap := itemsMap.Put(toInsert);
    }

    /**
     * Writes the same factory as the current version does for the same
     * members, except that the file is named after the target's qualified
     * name and the class is declared `public`.
     */
    method GenerateCode(u: Universe) returns (src: FactorySource)
      requires Valid() && qualifiedClassName.Some? && qualifiedClassName.value in u
      ensures src == OlderFactoryFor(u, qualifiedClassName.value, itemsMap.Values())
    {
      var name := qualifiedClassName.value;
      var superClassName := u[name];
      var factoryClassName := superClassName.simpleName + Suffix;
      var sourceFile := name + Suffix;
      var packageName: Option<string>;
      if superClassName.packageName != "" {
        packageName := Some(superClassName.packageName);
      } else {
        packageName := None;
      }
      var body := [ThrowIfNull(NullIdMessage)];
      var values := itemsMap.Values();
      var i := 0;
      while i < |itemsMap.keys|
        invariant 0 <= i <= |itemsMap.keys|
        invariant body == [ThrowIfNull(NullIdMessage)] + Branches(values[..i])
      {
        var item := itemsMap.entries[itemsMap.keys[i]];
        body := body + [ReturnNewIfEquals(item.id, item.element.qualifiedName)];
        i := i + 1;
      }
      assert values[..i] == values;
      body := body + [ThrowUnknown(UnknownIdPrefix)];
      src := FactorySource(sourceFile, packageName, true, factoryClassName, name, body);
    }
  }
}
