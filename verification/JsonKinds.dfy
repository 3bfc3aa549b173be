/** Kinds of JSON Schema difference and their backward-compatibility classification. */
module JsonKinds {

  datatype Bound = Maximum | Minimum | ExclusiveMaximum | ExclusiveMinimum | MaxLength | MinLength
                 | MaxItems | MinItems | MaxProperties | MinProperties

  datatype Change = Added | Removed | Decreased | Increased

  datatype Kind =
    | TypeNarrowed | TypeExtended | TypeChanged
    | PropertyAddedToOpen | PropertyRemovedFromOpen | PropertyAddedToClosed | PropertyRemovedFromClosed
    | PropertyAddedCovered | PropertyAddedNotCovered | PropertyRemovedCovered | PropertyRemovedNotCovered
    | EmptyPropertyAddedToOpen
    | RequiredAdded | RequiredRemoved | RequiredWithDefaultAdded | RequiredWithDefaultAddedToClosed
    | AdditionalPropertiesRemoved | AdditionalPropertiesAdded
    | AdditionalPropertiesNarrowed | AdditionalPropertiesExtended
    | EnumNarrowed | EnumExtended | EnumChanged
    | Bounded(bound: Bound, change: Change)
    | MultipleOfAdded | MultipleOfRemoved | MultipleOfReduced | MultipleOfExpanded | MultipleOfChanged
    | PatternAdded | PatternRemoved | PatternChanged
    | AdditionalItemsRemoved | AdditionalItemsAdded | AdditionalItemsNarrowed | AdditionalItemsExtended
    | UniqueItemsAdded | UniqueItemsRemoved
    | CombinedTypeChanged | CombinedTypeExtended | ProductTypeExtended | ProductTypeNarrowed
    | SumTypeExtended | SumTypeNarrowed | NotTypeExtended | NotTypeNarrowed | SubschemasChanged
    | DependencyArrayAdded | DependencyArrayRemoved
    | DependencyArrayExtended | DependencyArrayNarrowed | DependencyArrayChanged
    | DependencySchemaAdded | DependencySchemaRemoved
    | ConditionalChanged

  predicate IsUpper(b: Bound) { b.Maximum? || b.ExclusiveMaximum? || b.MaxLength? || b.MaxItems? || b.MaxProperties? }

  // A bound may go, or move outwards.
  predicate Loosens(b: Bound, c: Change) { c.Removed? || (if IsUpper(b) then c.Increased? else c.Decreased?) }

  /** A reader with this difference still reads the old data. */
  predicate IsBackwardCompatible(k: Kind) {
    match k
    case Bounded(b, c) => Loosens(b, c)
    case TypeExtended => true
    case PropertyRemovedFromOpen => true
    case PropertyAddedToClosed => true
    case PropertyAddedCovered => true
    case PropertyAddedNotCovered => true
    case PropertyRemovedCovered => true
    case EmptyPropertyAddedToOpen => true
    case RequiredRemoved => true
    case RequiredWithDefaultAdded => true
    case RequiredWithDefaultAddedToClosed => true
    case AdditionalPropertiesAdded => true
    case AdditionalPropertiesExtended => true
    case EnumExtended => true
    case MultipleOfRemoved => true
    case MultipleOfReduced => true
    case PatternRemoved => true
    case AdditionalItemsAdded => true
    case AdditionalItemsExtended => true
    case UniqueItemsRemoved => true
    case CombinedTypeExtended => true
    case ProductTypeNarrowed => true
    case SumTypeExtended => true
    case NotTypeNarrowed => true
    case DependencyArrayRemoved => true
    case DependencyArrayNarrowed => true
    case DependencySchemaRemoved => true
    case _ => false
  }

  predicate AllCompatible(kinds: seq<Kind>) { forall k <- kinds :: IsBackwardCompatible(k) }
}
