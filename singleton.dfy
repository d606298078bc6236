/**
  The name rewrite the singleton metaclass applies to its private slot
  name, and the check that refuses a class which already defines that slot.
 */
module Singleton {
  import opened Outcomes

  predicate StartsWith(s: string, prefix: string)
  {
    |prefix| <= |s| && s[..|prefix|] == prefix
  }

  predicate EndsWith(s: string, suffix: string)
  {
    |suffix| <= |s| && s[|s| - |suffix|..] == suffix
  }

  /**
    The rewrite: an attribute with two leading underscores and without two
    trailing ones gets '_' and the class name in front; any other attribute
    (plain, one leading underscore, or dunder) stays as it is.
   */
  function MangleAttribute(name: string, attribute: string): (r: string)
    // plain names and names with one leading underscore are kept
    ensures (|attribute| == 0 || attribute[0] != '_') ==> r == attribute
    ensures (|attribute| >= 1 && attribute[0] == '_' && (|attribute| == 1 || attribute[1] != '_')) ==> r == attribute
    // dunder names are kept
    ensures (|attribute| >= 2 && attribute[..2] == "__" && attribute[|attribute| - 2..] == "__") ==> r == attribute
    // class-private names are prefixed
    ensures (|attribute| >= 2 && attribute[..2] == "__" && attribute[|attribute| - 2..] != "__") ==> r == "_" + name + attribute
    // either way the result is the attribute, possibly with a prefix
    ensures r == attribute || r == "_" + name + attribute
    ensures EndsWith(r, attribute)
  {
    if StartsWith(attribute, "__") && !EndsWith(attribute, "__") then "_" + name + attribute else attribute
  }

  /** The four cases listed in the documentation of the rewrite, for a class called `name`. */
  lemma MangleDocumentedCases()
    ensures MangleAttribute("name", "attribute") == "attribute"
    ensures MangleAttribute("name", "_attribute") == "_attribute"
    ensures MangleAttribute("name", "__attribute") == "_name__attribute"
    ensures MangleAttribute("name", "__attribute__") == "__attribute__"
  {
    assert MangleAttribute("name", "attribute") == "attribute" by {
      assert "attribute"[0] == 'a';
    }
    assert MangleAttribute("name", "_attribute") == "_attribute" by {
      assert "_attribute"[0] == '_' && "_attribute"[1] == 'a';
    }
    assert MangleAttribute("name", "__attribute") == "_name__attribute" by {
      assert "__attribute"[..2] == "__";
      assert "__attribute"[9] == 't';
      assert "_" + "name" + "__attribute" == "_name__attribute";
    }
    assert MangleAttribute("name", "__attribute__") == "__attribute__" by {
      assert "__attribute__"[..2] == "__";
      assert "__attribute__"[11..] == "__";
    }
  }

  /**
    For a class name that does not start with '_' a rewritten name is not
    rewritten again: mangling is idempotent.
   */
  lemma MangleIdempotent(name: string, attribute: string)
    requires |name| > 0 && name[0] != '_'
    ensures MangleAttribute(name, MangleAttribute(name, attribute)) == MangleAttribute(name, attribute)
  {
    var r := MangleAttribute(name, attribute);
    if r != attribute {
      assert r[1] == name[0];
      assert !StartsWith(r, "__");
    }
  }

  /** The class attribute the metaclass keeps its single instance in. */
  const SINGLETON_ATTRIBUTE: string := "__singleton"

  /** Class creation fails with AttributeError naming the class and the attribute. */
  datatype ClassError = AttributeError(className: string, attribute: string)

  /**
    The check at class creation: the mangled slot name must not be a key of
    the class body yet; if it is, creation fails, otherwise the slot name is
    the one the instance will be stored under.
   */
  function SingletonSlot(name: string, classdict: set<string>): (r: Result<string, ClassError>)
    ensures r.Err? <==> "_" + name + "__singleton" in classdict
    ensures r.Err? ==> r.error == AttributeError(name, "__singleton")
    ensures r.Ok? ==> r.value == "_" + name + "__singleton" && r.value !in classdict
  {
    var slot := MangleAttribute(name, SINGLETON_ATTRIBUTE);
    if slot in classdict then Err(AttributeError(name, SINGLETON_ATTRIBUTE)) else Ok(slot)
  }
}
