/**
 * The browser console's own copy of the animals (webapp/script.js): the
 * localStorage keys "dogs" and "monkeys" each hold a JSON array of records
 * whose fields are the strings the console's forms wrote.
 */
module BrowserStore {
  import opened Wrappers
  import opened JsText
  import opened Docs

  /** A stored record: field name to string value; a missing key is `undefined`. */
  type Entry = map<string, string>

  /** Which list a form works on: `type + "s"` picks the key. */
  datatype Kind = DogKind | MonkeyKind

  /** `a[key]` is present and truthy, that is, a non-empty string. */
  predicate HasText(a: Entry, key: string)
  {
    key in a && a[key] != ""
  }

  /** `a[key] && a[key].toLowerCase().includes(term)`. */
  predicate FieldIncludes(a: Entry, key: string, term: string)
  {
    HasText(a, key) && Includes(Lower(a[key]), term)
  }

  /** The search test of `performSearch` for an already lower-cased term. */
  predicate SearchHit(a: Entry, term: string)
  {
    FieldIncludes(a, "name", term) || FieldIncludes(a, "species", term)
  }

  /**
   * `performSearch`: the records of the chosen list whose name or species
   * contains the lower-cased search term, ignoring case, in stored order.
   * A record with neither a name nor a species is never returned.
   */
  function SearchResults(list: seq<Entry>, termInput: string): (r: seq<Entry>)
    ensures IsSubsequence(r, list)
    ensures forall a :: a in r <==> a in list && SearchHit(a, Lower(termInput))
    ensures forall a :: a in r ==> HasText(a, "name") || HasText(a, "species")
  {
    KeepIsSubsequence(list, (a: Entry) => SearchHit(a, Lower(termInput)));
    Keep(list, (a: Entry) => SearchHit(a, Lower(termInput)))
  }

  /** The case of the search term does not matter. */
  lemma SearchIgnoresTermCase(list: seq<Entry>, termInput: string)
    ensures SearchResults(list, Lower(termInput)) == SearchResults(list, termInput)
  {
    LowerIdempotent(termInput);
  }

  /** An empty search term returns every record that has a name or a species. */
  lemma EmptyTermKeepsDescribed(list: seq<Entry>)
    ensures SearchResults(list, "") == Keep(list, (a: Entry) => HasText(a, "name") || HasText(a, "species"))
  {
    LowerEmpty("");
    forall a: Entry ensures SearchHit(a, "") == (HasText(a, "name") || HasText(a, "species")) {
      if HasText(a, "name") {
        assert "" <= Lower(a["name"])[0..];
      }
      if HasText(a, "species") {
        assert "" <= Lower(a["species"])[0..];
      }
    }
    KeepExt(list, (a: Entry) => SearchHit(a, ""), (a: Entry) => HasText(a, "name") || HasText(a, "species"));
  }

  /** `a.reserved === "false"`. */
  predicate IsUnreserved(a: Entry)
  {
    "reserved" in a && a["reserved"] == "false"
  }

  /**
   * The "available" listing: the unreserved records of both lists, dogs
   * first.
   */
  function AvailableList(dogs: seq<Entry>, monkeys: seq<Entry>): (r: seq<Entry>)
    ensures forall a :: a in r <==> (a in dogs || a in monkeys) && IsUnreserved(a)
  {
    Keep(dogs + monkeys, IsUnreserved)
  }

  /** The available dogs come before the available monkeys, each in stored order. */
  lemma AvailableDogsFirst(dogs: seq<Entry>, monkeys: seq<Entry>)
    ensures AvailableList(dogs, monkeys) == Keep(dogs, IsUnreserved) + Keep(monkeys, IsUnreserved)
  {
    KeepAppend(dogs, monkeys, IsUnreserved);
  }

  /** Every record has a `name`, so `animal.name.toLowerCase()` does not throw. */
  predicate AllNamed(list: seq<Entry>)
  {
    forall i :: 0 <= i < |list| ==> "name" in list[i]
  }

  /** The record's name equals the lower-cased input and it is not yet reserved. */
  predicate Reservable(a: Entry, name: string)
    requires "name" in a
  {
    Lower(a["name"]) == name && !("reserved" in a && a["reserved"] == "true")
  }

  /** One step of the `list.map` in `submitReservation`. */
  function Reserve(a: Entry, name: string): Entry
    requires "name" in a
  {
    if Reservable(a, name) then a["reserved" := "true"] else a
  }

  /** The list `submitReservation` stores back. */
  function ReserveAll(list: seq<Entry>, name: string): seq<Entry>
    requires AllNamed(list)
  {
    seq(|list|, i requires 0 <= i < |list| => Reserve(list[i], name))
  }

  /**
   * Every record whose name matches, not only the first, ends up reserved;
   * the length is unchanged; a record that does not match is unchanged, and
   * a matching one differs at most in `reserved`.
   */
  lemma ReserveAllEffect(list: seq<Entry>, name: string)
    requires AllNamed(list)
    ensures |ReserveAll(list, name)| == |list|
    ensures forall i :: 0 <= i < |list| && Lower(list[i]["name"]) == name ==>
      ReserveAll(list, name)[i]["reserved"] == "true"
    ensures forall i :: 0 <= i < |list| && Lower(list[i]["name"]) != name ==>
      ReserveAll(list, name)[i] == list[i]
    ensures forall i, k :: 0 <= i < |list| && k != "reserved" ==>
      (k in ReserveAll(list, name)[i] <==> k in list[i]) &&
      (k in list[i] ==> ReserveAll(list, name)[i][k] == list[i][k])
  {
  }

  /** The list changes exactly when some record was reservable: the `found` flag. */
  lemma ReserveAllChanges(list: seq<Entry>, name: string)
    requires AllNamed(list)
    ensures ReserveAll(list, name) != list <==> exists i :: 0 <= i < |list| && Reservable(list[i], name)
  {
    if exists i :: 0 <= i < |list| && Reservable(list[i], name) {
      var i :| 0 <= i < |list| && Reservable(list[i], name);
      assert ReserveAll(list, name)[i] != list[i] by {
        assert ReserveAll(list, name)[i]["reserved"] == "true";
      }
    } else {
      assert forall i :: 0 <= i < |list| ==> ReserveAll(list, name)[i] == list[i];
    }
  }

  /** Reserving the same name a second time changes nothing. */
  lemma ReserveAllIdempotent(list: seq<Entry>, name: string)
    requires AllNamed(list)
    ensures AllNamed(ReserveAll(list, name))
    ensures ReserveAll(ReserveAll(list, name), name) == ReserveAll(list, name)
  {
    var once := ReserveAll(list, name);
    assert AllNamed(once);
    forall i | 0 <= i < |once| ensures Reserve(once[i], name) == once[i] {
      assert once[i]["name"] == list[i]["name"];
    }
  }

  /** The imported value under one key: only an array replaces the stored list. */
  datatype ImportedValue = ArrayValue(items: seq<Entry>) | OtherValue

  /** The object `JSON.parse` produced from the chosen file. */
  datatype ImportFile = ImportFile(dogs: ImportedValue, monkeys: ImportedValue)

  /** Both stored lists. */
  datatype Lists = Lists(dogs: seq<Entry>, monkeys: seq<Entry>)

  /** `imported.x && Array.isArray(imported.x)`: replace the list, else keep it. */
  function Restored(current: seq<Entry>, v: ImportedValue): seq<Entry>
  {
    if v.ArrayValue? then v.items else current
  }

  /**
   * The reader's `onload` handler. `None` is a file whose text does not
   * parse or parses to `null`: the handler catches the error and stores
   * nothing.
   */
  function AfterLoad(stored: Lists, parsed: Option<ImportFile>): (r: Lists)
  {
    if parsed.None? then stored
    else Lists(Restored(stored.dogs, parsed.value.dogs), Restored(stored.monkeys, parsed.value.monkeys))
  }

  /**
   * Each list is replaced exactly when the file holds an array under its
   * key, and then by that array; importing the same file twice is the same
   * as importing it once.
   */
  lemma AfterLoadReplacesArrays(stored: Lists, parsed: Option<ImportFile>)
    ensures var r := AfterLoad(stored, parsed);
      (r.dogs != stored.dogs ==> parsed.Some? && parsed.value.dogs.ArrayValue? && r.dogs == parsed.value.dogs.items) &&
      (r.monkeys != stored.monkeys ==> parsed.Some? && parsed.value.monkeys.ArrayValue? && r.monkeys == parsed.value.monkeys.items) &&
      (parsed.Some? && parsed.value.dogs.ArrayValue? ==> r.dogs == parsed.value.dogs.items) &&
      (parsed.Some? && parsed.value.monkeys.ArrayValue? ==> r.monkeys == parsed.value.monkeys.items)
    ensures AfterLoad(AfterLoad(stored, parsed), parsed) == AfterLoad(stored, parsed)
  {
  }

  /**
   * `importData` as written: it sets the reader's `onload` but never starts
   * reading the file, so the handler never runs and nothing is stored.
   * `file` is the chosen file's parsed content, `None` when no file was chosen.
   */
  function ImportAsWritten(stored: Lists, file: Option<Option<ImportFile>>): (r: Lists)
  {
    stored
  }

  /** `importData` once the file is read: the `onload` handler runs on its content. */
  function ImportIntended(stored: Lists, file: Option<Option<ImportFile>>): (r: Lists)
  {
    if file.None? then stored else AfterLoad(stored, file.value)
  }

  /** A file holding a dog array is ignored as written, and restored once read. */
  lemma ImportedArrayIgnored()
    ensures var file := Some(Some(ImportFile(ArrayValue([map["name" := "Rex"]]), OtherValue)));
      ImportAsWritten(Lists([], []), file).dogs == [] &&
      ImportIntended(Lists([], []), file).dogs == [map["name" := "Rex"]]
  {
  }

  /** The two stored lists as the console's functions read and write them. */
  class LocalStore {
    var dogs: seq<Entry>
    var monkeys: seq<Entry>

    /** A browser with neither key set: `JSON.parse(null) || []` reads as empty. */
    constructor ()
      ensures dogs == [] && monkeys == []
    {
      dogs := [];
      monkeys := [];
    }

    function List(kind: Kind): seq<Entry>
      reads this
    {
      if kind == DogKind then dogs else monkeys
    }

    function Stored(): Lists
      reads this
    {
      Lists(dogs, monkeys)
    }

    /** `saveAnimalToLocal`: append one record to the chosen list. */
    method SaveAnimalToLocal(kind: Kind, data: Entry)
      modifies this
      ensures List(kind) == old(List(kind)) + [data]
      ensures kind == DogKind ==> monkeys == old(monkeys)
      ensures kind == MonkeyKind ==> dogs == old(dogs)
    {
      if kind == DogKind {
        dogs := dogs + [data];
      } else {
        monkeys := monkeys + [data];
      }
    }

    /**
     * `submitReservation`. A record without a name makes
     * `animal.name.toLowerCase()` throw before anything is stored: the
     * result is `None` and both lists are unchanged. Otherwise the chosen
     * list becomes `ReserveAll` of the lower-cased input and the result is
     * the `found` flag, true exactly when the list changed.
     */
    method SubmitReservation(kind: Kind, nameInput: string) returns (found: Option<bool>)
      modifies this
      ensures found.None? <==> !AllNamed(old(List(kind)))
      ensures found.None? ==> dogs == old(dogs) && monkeys == old(monkeys)
      ensures found.Some? ==> List(kind) == ReserveAll(old(List(kind)), Lower(nameInput))
      ensures found.Some? ==> (found.value <==> List(kind) != old(List(kind)))
      ensures kind == DogKind ==> monkeys == old(monkeys)
      ensures kind == MonkeyKind ==> dogs == old(dogs)
    {
      var list := List(kind);
      var name := Lower(nameInput);
      var out: seq<Entry> := [];
      var changed := false;
      var i := 0;
      while i < |list|
        invariant 0 <= i <= |list|
        invariant forall j :: 0 <= j < i ==> "name" in list[j]
        invariant |out| == i
        invariant forall j :: 0 <= j < i ==> out[j] == Reserve(list[j], name)
        invariant changed <==> exists j :: 0 <= j < i && Reservable(list[j], name)
      {
        var animal := list[i];
        if "name" !in animal {
          return None;
        }
        if Reservable(animal, name) {
          animal := animal["reserved" := "true"];
          changed := true;
        }
        out := out + [animal];
        i := i + 1;
      }
      assert out == ReserveAll(list, name);
      ReserveAllChanges(list, name);
      if kind == DogKind {
        dogs := out;
      } else {
        monkeys := out;
      }
      found := Some(changed);
    }

    /** The reader's `onload` handler applied to the parsed file. */
    method LoadImported(parsed: Option<ImportFile>)
      modifies this
      ensures Stored() == AfterLoad(old(Stored()), parsed)
    {
      if parsed.Some? {
        if parsed.value.dogs.ArrayValue? {
          dogs := parsed.value.dogs.items;
        }
        if parsed.value.monkeys.ArrayValue? {
          monkeys := parsed.value.monkeys.items;
        }
      }
    }

    /** `importData` with the file actually read: no file, no change. */
    method ImportData(file: Option<Option<ImportFile>>)
      modifies this
      ensures Stored() == ImportIntended(old(Stored()), file)
    {
      if file.Some? {
        LoadImported(file.value);
      }
    }
  }
}
