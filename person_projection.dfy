/** The persons index projection: a person reduced to `id`, `displayName`
    and `tags`, with no phone numbers and no addresses. */
module PersonProjection {
  import opened Strings
  import opened Sorting

  datatype Phone = Phone(phoneNumberPrefix: string, phoneNumberSuffix: string)

  /** `Person` as the document store holds it, personal data included. */
  datatype Person = Person(
    id: string,
    name: string,
    lastName: string,
    personType: string,
    phones: seq<Phone>,
    addresses: seq<string>)

  /** `PersonIndexProjection`: by its very shape it has no place for phones
      or addresses. */
  datatype PersonIndexProjection = PersonIndexProjection(id: string, displayName: string, tags: seq<string>)

  /** `` `${name} ${lastName}`.trim() ``. */
  function DisplayName(name: string, lastName: string): string {
    Trim(name + " " + lastName)
  }

  /** `toPersonIndexProjection`. */
  function ToPersonIndexProjection(person: Person): PersonIndexProjection {
    PersonIndexProjection(person.id, DisplayName(person.name, person.lastName), [person.personType])
  }

  /** The person with its personal data blanked out. */
  function WithoutPii(person: Person): Person {
    person.(phones := [], addresses := [])
  }

  /** The projection keeps the id and the type (as the only tag), its display
      name is the trimmed "name lastName" with neither end whitespace, and it
      is the same whatever the phones and addresses are. */
  lemma ProjectionFields(person: Person)
    ensures var r := ToPersonIndexProjection(person);
      && r.id == person.id
      && r.tags == [person.personType]
      && r.displayName == Trim(person.name + " " + person.lastName)
      && (r.displayName != [] ==>
            !IsWhitespace(r.displayName[0]) && !IsWhitespace(r.displayName[|r.displayName| - 1]))
      && r == ToPersonIndexProjection(WithoutPii(person))
  {
    TrimIsInnerSlice(person.name + " " + person.lastName);
  }

  /** `a.id.localeCompare(b.id) <= 0`. */
  predicate ById(a: PersonIndexProjection, b: PersonIndexProjection) {
    StrLe(a.id, b.id)
  }

  lemma ByIdIsTotalPreorder()
    ensures TotalPreorder(ById)
  {
    forall a: PersonIndexProjection, b: PersonIndexProjection ensures ById(a, b) || ById(b, a) {
      StrLeTotal(a.id, b.id);
    }
    forall a: PersonIndexProjection, b: PersonIndexProjection, c: PersonIndexProjection
      | ById(a, b) && ById(b, c) ensures ById(a, c)
    {
      StrLeTransitive(a.id, b.id, c.id);
    }
  }

  /** `sortPersonsForIndex`: sorts the array in place and returns it. */
  method SortPersonsForIndex(persons: array<PersonIndexProjection>) returns (r: array<PersonIndexProjection>)
    modifies persons
    ensures r == persons
    ensures r[..] == SortBy(old(persons[..]), ById)
  {
    SortInPlace(persons, ById);
    r := persons;
  }

  /** The sorted persons are a permutation of the input, in ascending id
      order, and sorting sorted persons changes nothing. */
  lemma SortedPersonsIndex(ps: seq<PersonIndexProjection>)
    ensures multiset(SortBy(ps, ById)) == multiset(ps)
    ensures forall i, j :: 0 <= i < j < |ps| ==> StrLe(SortBy(ps, ById)[i].id, SortBy(ps, ById)[j].id)
    ensures SortBy(SortBy(ps, ById), ById) == SortBy(ps, ById)
  {
    ByIdIsTotalPreorder();
    SortBySorted(ps, ById);
    SortByIdempotent(ps, ById);
  }
}
