/**
 * The entry record and its sixteen category keys (src/utils/types.ts).
 */
module Types {
  import opened Wrappers

  /** The sixteen keys of POLITISCALE_CATEGORIES, in declaration order. */
  datatype Key =
    | Constructivisme | Essentialisme
    | JusticeRehabilitative | JusticePunitive
    | Progressisme | Conservatisme
    | Internationalisme | Nationalisme
    | Communisme | Capitalisme
    | Regulation | LaissezFaire
    | Ecologie | Productivisme
    | Revolution | Reformisme

  /** Every key once, in declaration order. */
  const AllKeys: seq<Key> := [
    Constructivisme, Essentialisme, JusticeRehabilitative, JusticePunitive,
    Progressisme, Conservatisme, Internationalisme, Nationalisme,
    Communisme, Capitalisme, Regulation, LaissezFaire,
    Ecologie, Productivisme, Revolution, Reformisme
  ]

  /** Position of a key in declaration order. */
  function Index(k: Key): (i: nat)
    ensures i < 16 && AllKeys[i] == k
  {
    match k
    case Constructivisme => 0
    case Essentialisme => 1
    case JusticeRehabilitative => 2
    case JusticePunitive => 3
    case Progressisme => 4
    case Conservatisme => 5
    case Internationalisme => 6
    case Nationalisme => 7
    case Communisme => 8
    case Capitalisme => 9
    case Regulation => 10
    case LaissezFaire => 11
    case Ecologie => 12
    case Productivisme => 13
    case Revolution => 14
    case Reformisme => 15
  }

  /** The identifier the source uses for a key (a property name, and a CSV header). */
  function KeyName(k: Key): string {
    match k
    case Constructivisme => "constructivisme"
    case Essentialisme => "essentialisme"
    case JusticeRehabilitative => "justiceRehabilitative"
    case JusticePunitive => "justicePunitive"
    case Progressisme => "progressisme"
    case Conservatisme => "conservatisme"
    case Internationalisme => "internationalisme"
    case Nationalisme => "nationalisme"
    case Communisme => "communisme"
    case Capitalisme => "capitalisme"
    case Regulation => "regulation"
    case LaissezFaire => "laissezFaire"
    case Ecologie => "ecologie"
    case Productivisme => "productivisme"
    case Revolution => "revolution"
    case Reformisme => "reformisme"
  }

  /** POLITISCALE_CATEGORIES: the display name of each key. */
  function CategoryName(k: Key): string {
    match k
    case Constructivisme => "Constructivisme"
    case Essentialisme => "Essentialisme"
    case JusticeRehabilitative => "Justice Réhabilitative"
    case JusticePunitive => "Justice Punitive"
    case Progressisme => "Progressisme"
    case Conservatisme => "Conservatisme"
    case Internationalisme => "Internationalisme"
    case Nationalisme => "Nationalisme"
    case Communisme => "Communisme"
    case Capitalisme => "Capitalisme"
    case Regulation => "Régulation"
    case LaissezFaire => "Laissez-faire"
    case Ecologie => "Écologie"
    case Productivisme => "Productivisme"
    case Revolution => "Révolution"
    case Reformisme => "Réformisme"
  }

  /** The sixteen nullable scores of an entry, indexed by `Index`. */
  type Scores = s: seq<Option<real>> | |s| == 16
    witness [None, None, None, None, None, None, None, None,
             None, None, None, None, None, None, None, None]

  /** PolitiScalesEntry: identity, label, colour and one nullable score per key. */
  datatype Entry = Entry(id: int, pseudo: string, color: string, scores: Scores) {
    /** `entry[k]`: the score stored under key k (None stands for null). */
    function Score(k: Key): Option<real> {
      scores[Index(k)]
    }
  }

  /** A score as JavaScript's `Number(...)` reads it: null counts as 0. */
  function NumberOf(v: Option<real>): real {
    v.GetOr(0.0)
  }

  /** The key whose identifier is `name`, if any (the cast `header as keyof PolitiScalesEntry`). */
  function KeyOfName(name: string): (r: Option<Key>)
    ensures r.Some? ==> KeyName(r.value) == name
  {
    if name == "constructivisme" then Some(Constructivisme)
    else if name == "essentialisme" then Some(Essentialisme)
    else if name == "justiceRehabilitative" then Some(JusticeRehabilitative)
    else if name == "justicePunitive" then Some(JusticePunitive)
    else if name == "progressisme" then Some(Progressisme)
    else if name == "conservatisme" then Some(Conservatisme)
    else if name == "internationalisme" then Some(Internationalisme)
    else if name == "nationalisme" then Some(Nationalisme)
    else if name == "communisme" then Some(Communisme)
    else if name == "capitalisme" then Some(Capitalisme)
    else if name == "regulation" then Some(Regulation)
    else if name == "laissezFaire" then Some(LaissezFaire)
    else if name == "ecologie" then Some(Ecologie)
    else if name == "productivisme" then Some(Productivisme)
    else if name == "revolution" then Some(Revolution)
    else if name == "reformisme" then Some(Reformisme)
    else None
  }

  /** Identifiers name keys one-to-one: reading a key's identifier back gives the key. */
  lemma KeyNameRoundTrip(k: Key)
    ensures KeyOfName(KeyName(k)) == Some(k)
  {
    if Index(k) < 4 {
      FirstKeyNamesRoundTrip(k);
    } else if Index(k) < 8 {
      SecondKeyNamesRoundTrip(k);
    } else if Index(k) < 12 {
      ThirdKeyNamesRoundTrip(k);
    } else {
      FourthKeyNamesRoundTrip(k);
    }
  }

  lemma FirstKeyNamesRoundTrip(k: Key)
    requires 0 <= Index(k) < 4
    ensures KeyOfName(KeyName(k)) == Some(k)
  {
    match k
    case Constructivisme =>
    case Essentialisme =>
    case JusticeRehabilitative =>
    case JusticePunitive =>
    case _ => assert false;
  }

  lemma SecondKeyNamesRoundTrip(k: Key)
    requires 4 <= Index(k) < 8
    ensures KeyOfName(KeyName(k)) == Some(k)
  {
    match k
    case Progressisme =>
    case Conservatisme =>
    case Internationalisme =>
    case Nationalisme =>
    case _ => assert false;
  }

  lemma ThirdKeyNamesRoundTrip(k: Key)
    requires 8 <= Index(k) < 12
    ensures KeyOfName(KeyName(k)) == Some(k)
  {
    match k
    case Communisme =>
    case Capitalisme =>
    case Regulation =>
    case LaissezFaire =>
    case _ => assert false;
  }

  lemma FourthKeyNamesRoundTrip(k: Key)
    requires 12 <= Index(k) < 16
    ensures KeyOfName(KeyName(k)) == Some(k)
  {
    match k
    case Ecologie =>
    case Productivisme =>
    case Revolution =>
    case Reformisme =>
    case _ => assert false;
  }

  /** Declaration order lists every key exactly once: position and key determine each other. */
  lemma AllKeysDistinct()
    ensures forall i :: 0 <= i < 16 ==> Index(AllKeys[i]) == i
    ensures forall i, j :: 0 <= i < j < 16 ==> AllKeys[i] != AllKeys[j]
  {
    assert Index(AllKeys[0]) == 0 && Index(AllKeys[1]) == 1 && Index(AllKeys[2]) == 2 && Index(AllKeys[3]) == 3;
    assert Index(AllKeys[4]) == 4 && Index(AllKeys[5]) == 5 && Index(AllKeys[6]) == 6 && Index(AllKeys[7]) == 7;
    assert Index(AllKeys[8]) == 8 && Index(AllKeys[9]) == 9 && Index(AllKeys[10]) == 10 && Index(AllKeys[11]) == 11;
    assert Index(AllKeys[12]) == 12 && Index(AllKeys[13]) == 13 && Index(AllKeys[14]) == 14 && Index(AllKeys[15]) == 15;
  }
}
