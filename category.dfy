/**
 * The product categories: a closed enum, a value -> label table, its inverse
 * (label -> value), a resolver that accepts either spelling, and the message
 * that lists every valid category.
 */
module ProductCategories {
  import opened Wrappers

  datatype Category =
    | Eletronicos
    | Roupas
    | Livros
    | CasaJardim
    | Esportes
    | Beleza
    | Brinquedos
    | Automotivo
    | AlimentosBebidas
    | Saude

  /** The members in declaration order, the order of `Object.values` and `Object.entries`. */
  const Categories: seq<Category> :=
    [Eletronicos, Roupas, Livros, CasaJardim, Esportes, Beleza, Brinquedos, Automotivo, AlimentosBebidas, Saude]

  /** The enum's string value; it is also the member's key. */
  function Value(c: Category): string {
    match c
    case Eletronicos => "ELETRONICOS"
    case Roupas => "ROUPAS"
    case Livros => "LIVROS"
    case CasaJardim => "CASA_JARDIM"
    case Esportes => "ESPORTES"
    case Beleza => "BELEZA"
    case Brinquedos => "BRINQUEDOS"
    case Automotivo => "AUTOMOTIVO"
    case AlimentosBebidas => "ALIMENTOS_BEBIDAS"
    case Saude => "SAUDE"
  }

  /** PRODUCT_CATEGORY_LABELS: the human-readable label of each member. */
  function Label(c: Category): string {
    match c
    case Eletronicos => "Eletrônicos"
    case Roupas => "Roupas e Acessórios"
    case Livros => "Livros"
    case CasaJardim => "Casa e Jardim"
    case Esportes => "Esportes e Lazer"
    case Beleza => "Beleza e Cuidados"
    case Brinquedos => "Brinquedos"
    case Automotivo => "Automotivo"
    case AlimentosBebidas => "Alimentos e Bebidas"
    case Saude => "Saúde"
  }

  lemma EveryCategoryListed(c: Category)
    ensures c in Categories
  {
    match c
    case Eletronicos => assert Categories[0] == c;
    case Roupas => assert Categories[1] == c;
    case Livros => assert Categories[2] == c;
    case CasaJardim => assert Categories[3] == c;
    case Esportes => assert Categories[4] == c;
    case Beleza => assert Categories[5] == c;
    case Brinquedos => assert Categories[6] == c;
    case Automotivo => assert Categories[7] == c;
    case AlimentosBebidas => assert Categories[8] == c;
    case Saude => assert Categories[9] == c;
  }

  /** The ten values are pairwise distinct, so are the ten labels, and no label is also an enum value. */
  lemma LabelsDistinct(c: Category, d: Category)
    ensures Value(c) == Value(d) ==> c == d
    ensures Label(c) == Label(d) ==> c == d
    ensures Value(c) != Label(d)
  {
  }

  /**
   * LABEL_TO_CATEGORY: the reduce over the entries of the label table, where
   * each entry stores label -> value into the accumulator, a later entry
   * overwriting an earlier one with the same label.
   */
  function LabelIndex(cs: seq<Category>): (r: map<string, Category>)
    ensures forall s :: s in r ==> r[s] in cs && Label(r[s]) == s
  {
    if cs == [] then map[]
    else
      var init, last := cs[..|cs| - 1], cs[|cs| - 1];
      assert forall c :: c in init ==> c in cs;
      LabelIndex(init)[Label(last) := last]
  }

  const LabelToCategory: map<string, Category> := LabelIndex(Categories)

  /**
   * The index built from distinct members has exactly their labels as keys
   * and maps each label back to its member.
   */
  lemma {:induction false} LabelIndexInverts(cs: seq<Category>)
    ensures forall s :: s in LabelIndex(cs) <==> exists c :: c in cs && Label(c) == s
    ensures forall c :: c in cs ==> Label(c) in LabelIndex(cs) && LabelIndex(cs)[Label(c)] == c
  {
    if cs != [] {
      var init, last := cs[..|cs| - 1], cs[|cs| - 1];
      assert cs == init + [last];
      LabelIndexInverts(init);
      forall c | c in cs
        ensures Label(c) in LabelIndex(cs) && LabelIndex(cs)[Label(c)] == c
      {
        LabelsDistinct(c, last);
      }
      forall s | s in LabelIndex(cs)
        ensures exists c :: c in cs && Label(c) == s
      {
        if s != Label(last) {
          assert s in LabelIndex(init);
          var c :| c in init && Label(c) == s;
          assert c in cs;
        }
      }
    }
  }

  /** LABEL_TO_CATEGORY is the true inverse of PRODUCT_CATEGORY_LABELS. */
  lemma LabelToCategoryInverse()
    ensures forall c :: Label(c) in LabelToCategory && LabelToCategory[Label(c)] == c
    ensures forall s :: s in LabelToCategory ==> Label(LabelToCategory[s]) == s
  {
    LabelIndexInverts(Categories);
    forall c ensures Label(c) in LabelToCategory && LabelToCategory[Label(c)] == c {
      EveryCategoryListed(c);
    }
    forall s | s in LabelToCategory ensures Label(LabelToCategory[s]) == s {
      var c :| c in Categories && Label(c) == s;
    }
  }

  /** `Object.values(ProductCategory).includes(input)`, returning the member found. */
  function FindByValue(cs: seq<Category>, input: string): (r: Option<Category>)
    ensures r.Some? ==> r.value in cs && Value(r.value) == input
    ensures r.None? ==> forall c :: c in cs ==> Value(c) != input
  {
    if cs == [] then None
    else if Value(cs[0]) == input then Some(cs[0])
    else FindByValue(cs[1..], input)
  }

  /**
   * findCategoryByValueOrLabel: an enum value is returned as it is; otherwise
   * the input is looked up among the labels; otherwise null (None). The label
   * lookup reads only the table's own entries (see FindCategoryAsWritten for
   * what the source's plain-object lookup does).
   */
  function FindCategoryByValueOrLabel(input: string): (r: Option<Category>)
    ensures r.None? <==> forall c :: Value(c) != input && Label(c) != input
    ensures r.Some? ==> Value(r.value) == input || Label(r.value) == input
  {
    LabelToCategoryInverse();
    match FindByValue(Categories, input)
    case Some(c) => Some(c)
    case None =>
      assert forall c :: Value(c) != input by {
        forall c ensures Value(c) != input { EveryCategoryListed(c); }
      }
      if input in LabelToCategory then Some(LabelToCategory[input]) else None
  }

  /** An enum value resolves to its own member. */
  lemma FindByValueRoundTrip(c: Category)
    ensures FindCategoryByValueOrLabel(Value(c)) == Some(c)
  {
    EveryCategoryListed(c);
    var r := FindByValue(Categories, Value(c));
    LabelsDistinct(r.value, c);
  }

  /** A label resolves to the member it labels: PRODUCT_CATEGORY_LABELS then the lookup is the identity. */
  lemma FindByLabelRoundTrip(c: Category)
    ensures FindCategoryByValueOrLabel(Label(c)) == Some(c)
  {
    forall d ensures Value(d) != Label(c) { LabelsDistinct(d, c); }
    LabelToCategoryInverse();
  }

  // ---- the invalid-category message ----

  /** One entry of the list: "KEY (Label)". */
  function Entry(c: Category): string {
    Value(c) + " (" + Label(c) + ")"
  }

  /** `map` over the entries of the label table. */
  function Entries(cs: seq<Category>): (r: seq<string>)
    ensures |r| == |cs|
    ensures forall i :: 0 <= i < |cs| ==> r[i] == Entry(cs[i])
  {
    if cs == [] then [] else [Entry(cs[0])] + Entries(cs[1..])
  }

  /** Array.prototype.join. */
  function Join(parts: seq<string>, sep: string): string {
    if parts == [] then ""
    else if |parts| == 1 then parts[0]
    else parts[0] + sep + Join(parts[1..], sep)
  }

  const MessagePrefix: string := "Categoria inválida. As categorias válidas são: "

  /** getInvalidCategoryErrorMessage. */
  function InvalidCategoryErrorMessage(): (r: string)
    ensures |MessagePrefix| <= |r| && r[..|MessagePrefix|] == MessagePrefix
  {
    MessagePrefix + Join(Entries(Categories), ", ")
  }

  /** `s.includes(t)`: t occurs somewhere in s. */
  function Occurs(t: string, s: string): bool {
    if |t| <= |s| && s[..|t|] == t then true
    else if s == [] then false
    else Occurs(t, s[1..])
  }

  lemma {:induction false} OccursAfter(t: string, pre: string, s: string)
    requires Occurs(t, s)
    ensures Occurs(t, pre + s)
  {
    if pre != [] {
      assert (pre + s)[1..] == pre[1..] + s;
      OccursAfter(t, pre[1..], s);
    } else {
      assert pre + s == s;
    }
  }

  lemma OccursBefore(t: string, s: string)
    ensures Occurs(t, t + s)
  {
    assert (t + s)[..|t|] == t;
  }

  lemma {:induction false} JoinContainsPart(parts: seq<string>, sep: string, i: nat)
    requires i < |parts|
    ensures Occurs(parts[i], Join(parts, sep))
  {
    if |parts| == 1 {
      OccursBefore(parts[0], "");
      assert parts[0] + "" == parts[0];
    } else if i == 0 {
      OccursBefore(parts[0], sep + Join(parts[1..], sep));
      assert parts[0] + sep + Join(parts[1..], sep) == parts[0] + (sep + Join(parts[1..], sep));
    } else {
      JoinContainsPart(parts[1..], sep, i - 1);
      OccursAfter(parts[i], parts[0] + sep, Join(parts[1..], sep));
    }
  }

  /** A list of entries, after any prefix, names each of its members. */
  lemma ListsEachMember(prefix: string, cs: seq<Category>, i: nat)
    requires i < |cs|
    ensures Occurs(Entry(cs[i]), prefix + Join(Entries(cs), ", "))
  {
    JoinContainsPart(Entries(cs), ", ", i);
    OccursAfter(Entry(cs[i]), prefix, Join(Entries(cs), ", "));
  }

  /** The message names every category as "KEY (Label)". */
  lemma MessageListsEveryCategory(c: Category)
    ensures Occurs(Entry(c), InvalidCategoryErrorMessage())
  {
    EveryCategoryListed(c);
    var i :| 0 <= i < |Categories| && Categories[i] == c;
    ListsEachMember(MessagePrefix, Categories, i);
  }

  // ---- the label lookup as the source writes it ----

  /**
   * What reading a key of a plain JavaScript object built from `{}` yields:
   * one of its own entries, a member it inherits from Object.prototype, or
   * undefined.
   */
  datatype JsLookup = Undefined | OwnEntry(category: Category) | Inherited(name: string)

  /** The names every `{}` object inherits from Object.prototype (all truthy). */
  const ObjectPrototypeMembers: set<string> := {
    "constructor", "hasOwnProperty", "isPrototypeOf", "propertyIsEnumerable",
    "toLocaleString", "toString", "valueOf", "__proto__",
    "__defineGetter__", "__defineSetter__", "__lookupGetter__", "__lookupSetter__"
  }

  function LabelLookupAsWritten(input: string): JsLookup {
    if input in LabelToCategory then OwnEntry(LabelToCategory[input])
    else if input in ObjectPrototypeMembers then Inherited(input)
    else Undefined
  }

  /**
   * findCategoryByValueOrLabel as written: `LABEL_TO_CATEGORY[input] || null`
   * passes on whatever truthy value the lookup yields. Undefined plays null.
   */
  function FindCategoryAsWritten(input: string): (r: JsLookup)
    ensures r.OwnEntry? ==> Value(r.category) == input || Label(r.category) == input
    ensures r.Inherited? ==> r.name == input && input in ObjectPrototypeMembers
    ensures r.Undefined? <==> input !in ObjectPrototypeMembers && forall c :: Value(c) != input && Label(c) != input
  {
    LabelToCategoryInverse();
    match FindByValue(Categories, input)
    case Some(c) => OwnEntry(c)
    case None =>
      assert forall c :: Value(c) != input by {
        forall c ensures Value(c) != input { EveryCategoryListed(c); }
      }
      LabelLookupAsWritten(input)
  }

  /**
   * "toString" is neither a value nor a label, yet the written lookup returns
   * the inherited function instead of null; the corrected resolver says None.
   */
  lemma InheritedNameSlipsThrough()
    ensures FindCategoryAsWritten("toString") == Inherited("toString")
    ensures FindCategoryByValueOrLabel("toString") == None
  {
    LabelToCategoryInverse();
    assert forall c :: Value(c) != "toString";
    assert "toString" !in LabelToCategory;
  }

  /** Away from the inherited names the written lookup and the corrected resolver agree. */
  lemma AsWrittenAgreesElsewhere(input: string)
    requires input !in ObjectPrototypeMembers
    ensures FindCategoryAsWritten(input) ==
            match FindCategoryByValueOrLabel(input)
            case Some(c) => OwnEntry(c)
            case None => Undefined
  {
  }
}
