/** A symbol-table record: the name of a declared identifier and the type
    keyword that declared it. The type can be corrected after creation. */
module Symbols {

  class SymbolEntry {
    var name: string
    var typeName: string

    constructor (name: string, typeName: string)
      ensures GetName() == name && GetType() == typeName
    {
      this.name := name;
      this.typeName := typeName;
    }

    function GetName(): string
      reads this
    {
      name
    }

    function GetType(): string
      reads this
    {
      typeName
    }

    method SetType(t: string)
      modifies this
      ensures GetType() == t
      ensures GetName() == old(GetName())
    {
      typeName := t;
    }
  }
}
