/**
 * The N4 type table: a type has a name, a size in bytes and a signedness
 * flag; a pointer type wraps a base type.
 */
module Types {

  /** Size in bytes of every named type. */
  const SizeMap: map<string, nat> :=
    map["void" := 0, "ptr" := 4, "byte" := 1, "short" := 2, "int" := 4, "long" := 8,
        "ubyte" := 1, "ushort" := 2, "uint" := 4, "ulong" := 8]

  const UnsignedNames: set<string> := {"ubyte", "ushort", "uint", "ulong"}

  datatype Type =
    | Basic(name: string, size: nat, signed: bool)
    | Pointer(base: Type)
  {
    /** The display name; a pointer is shown as `ptr<base>`. */
    function Name(): string {
      match this
      case Basic(n, _, _) => n
      case Pointer(b) => "ptr<" + b.Name() + ">"
    }

    function Size(): nat {
      match this
      case Basic(_, s, _) => s
      case Pointer(_) => 8
    }

    function Signed(): bool {
      match this
      case Basic(_, _, s) => s
      case Pointer(_) => false
    }
  }

  /** The signedness flag as the table computes it: true for the four `u`-prefixed names. */
  function LiteralIsSigned(literal: string): (b: bool)
    ensures b ==> literal in SizeMap && HasUnsignedPrefix(literal)
  {
    literal in UnsignedNames
  }

  /** Looks a type name up in the size table; the name must be one of its keys. */
  function LiteralToType(literal: string): (t: Type)
    requires literal in SizeMap
    ensures t.Basic? && t.Name() == literal
  {
    Basic(literal, SizeMap[literal], LiteralIsSigned(literal))
  }

  function PointerType(base: Type): (t: Type)
    ensures t.Size() == 8 && !t.Signed()
    ensures t.Name() == "ptr<" + base.Name() + ">"
  {
    Pointer(base)
  }

  /** True when a name starts with `u`, the convention the unsigned names follow. */
  predicate HasUnsignedPrefix(literal: string) {
    |literal| > 0 && literal[0] == 'u'
  }

  /**
   * The table type for a name has the table size, and its flag is set
   * exactly for the `u`-prefixed names: the flag reports unsignedness
   * although it is called `signed`.
   */
  lemma LiteralToTypeTable(literal: string)
    requires literal in SizeMap
    ensures LiteralToType(literal).Size() == SizeMap[literal]
    ensures LiteralToType(literal).Signed() <==> HasUnsignedPrefix(literal)
  {
    assert SizeMap.Keys == {"void", "ptr", "byte", "short", "int", "long", "ubyte", "ushort", "uint", "ulong"};
  }

  /** `int`, a signed type in the language, gets the flag false. */
  lemma IntIsFlaggedUnsigned()
    ensures !LiteralToType("int").Signed()
    ensures LiteralToType("uint").Signed()
  {
    LiteralToTypeTable("int");
    LiteralToTypeTable("uint");
  }

  /** The evidently intended flag: signed unless the name is one of the unsigned names. */
  function IntendedSigned(literal: string): (signed: bool)
    requires literal in SizeMap
    ensures signed <==> !HasUnsignedPrefix(literal)
  {
    assert SizeMap.Keys == {"void", "ptr", "byte", "short", "int", "long", "ubyte", "ushort", "uint", "ulong"};
    literal !in UnsignedNames
  }
}
