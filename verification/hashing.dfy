/** `make_hash`: the key a visit record is deduplicated on. The string fed to SHA-1 is
    the institution, the transliterated name, document type and document number, the
    date, and the transliterated start time, concatenated in that order with nothing in
    between. `unidecode` and SHA-1 are foreign code: they are the parameters `fold` and
    `digest`, about which nothing is assumed. */
module Hashing {
  import opened Results

  /** A visit record as the `dict` that `make_hash` receives and updates. */
  type Item = map<string, string>

  /** The fields that `make_hash` reads. */
  const HashedKeys: set<string> := {"institution", "full_name", "id_document", "id_number", "date", "time_start"}

  /** What an optional field adds to the hash input: its transliteration when present,
      nothing when absent. */
  function Part(item: Item, key: string, fold: string -> string): string {
    if key in item then fold(item[key]) else ""
  }

  /** The hash input, or the KeyError of the first required field that is missing:
      `institution` is read before `date`. */
  function HashInput(item: Item, fold: string -> string): (r: Result<string>)
    ensures r.Err? <==> "institution" !in item || "date" !in item
    ensures r.Err? ==> r.error == KeyError(if "institution" !in item then "institution" else "date")
    ensures r.Ok? ==> item["institution"] <= r.value
    ensures r.Ok? ==>
              var tail := Part(item, "time_start", fold);
              var k := |r.value| - |tail| - |item["date"]|;
              && |item["institution"]| <= k
              && r.value[k..|r.value| - |tail|] == item["date"]
              && r.value[|r.value| - |tail|..] == tail
    ensures r.Ok? ==> |r.value| == |item["institution"]| + |Part(item, "full_name", fold)| + |Part(item, "id_document", fold)|
                                  + |Part(item, "id_number", fold)| + |item["date"]| + |Part(item, "time_start", fold)|
  {
    if "institution" !in item then Err(KeyError("institution"))
    else if "date" !in item then Err(KeyError("date"))
    else
      Ok(item["institution"] + Part(item, "full_name", fold) + Part(item, "id_document", fold)
         + Part(item, "id_number", fold) + item["date"] + Part(item, "time_start", fold))
  }

  /** `make_hash` as written: the input is accumulated with successive `+=` and the
      digest is stored under "sha1" in the same dictionary, which is returned. */
  method MakeHash(item: Item, fold: string -> string, digest: string -> string) returns (r: Result<Item>)
    ensures r.Err? <==> HashInput(item, fold).Err?
    ensures r.Err? ==> r.error == HashInput(item, fold).error
    ensures r.Ok? ==> r.value == item["sha1" := digest(HashInput(item, fold).value)]
  {
    if "institution" !in item {
      return Err(KeyError("institution"));
    }
    var input := item["institution"];
    if "full_name" in item {
      input := input + fold(item["full_name"]);
    }
    assert input == item["institution"] + Part(item, "full_name", fold);
    if "id_document" in item {
      input := input + fold(item["id_document"]);
    }
    assert input == item["institution"] + Part(item, "full_name", fold) + Part(item, "id_document", fold);
    if "id_number" in item {
      input := input + fold(item["id_number"]);
    }
    assert input == item["institution"] + Part(item, "full_name", fold) + Part(item, "id_document", fold)
                    + Part(item, "id_number", fold);
    if "date" !in item {
      return Err(KeyError("date"));
    }
    input := input + item["date"];
    if "time_start" in item {
      input := input + fold(item["time_start"]);
    }
    assert input == HashInput(item, fold).value;
    r := Ok(item["sha1" := digest(input)]);
  }

  /** Two items hash alike when they agree on the hashed fields: the same fields present,
      institution and date equal, and the other four equal after transliteration. */
  predicate AgreeOnHashedFields(a: Item, b: Item, fold: string -> string) {
    && (forall k :: k in HashedKeys ==> (k in a <==> k in b))
    && ("institution" in a ==> a["institution"] == b["institution"])
    && ("date" in a ==> a["date"] == b["date"])
    && (forall k :: k in HashedKeys && k != "institution" && k != "date" && k in a ==> fold(a[k]) == fold(b[k]))
  }

  /** Equal values in the six hashed fields give an equal hash input, hence an equal sha1;
      every other field is ignored. */
  lemma SameFieldsSameInput(a: Item, b: Item, fold: string -> string)
    requires AgreeOnHashedFields(a, b, fold)
    ensures HashInput(a, fold) == HashInput(b, fold)
  {
    assert "institution" in HashedKeys && "date" in HashedKeys;
    forall k | k in {"full_name", "id_document", "id_number", "time_start"}
      ensures Part(a, k, fold) == Part(b, k, fold)
    {
      assert k in HashedKeys;
    }
  }

  /** Adding or changing a field that is not hashed leaves the hash input alone. */
  lemma OtherFieldsIgnored(item: Item, key: string, value: string, fold: string -> string)
    requires key !in HashedKeys
    ensures HashInput(item[key := value], fold) == HashInput(item, fold)
  {
    SameFieldsSameInput(item, item[key := value], fold);
  }

  /** The fields are joined without a separator, so different items can share a hash
      input: moving the first character of the date to the end of the document number
      changes the item but not the string that is hashed (whenever transliteration
      leaves both document numbers as they are, as it does for digits). */
  lemma FieldsRunTogether(a: Item, fold: string -> string)
    requires HashedKeys <= a.Keys && |a["date"]| > 0
    requires fold(a["id_number"]) == a["id_number"]
    requires fold(a["id_number"] + a["date"][..1]) == a["id_number"] + a["date"][..1]
    ensures var b := a["id_number" := a["id_number"] + a["date"][..1]]["date" := a["date"][1..]];
            b != a && HashInput(b, fold) == HashInput(a, fold)
  {
    var number, date := a["id_number"], a["date"];
    var b := a["id_number" := number + date[..1]]["date" := date[1..]];
    assert "institution" in HashedKeys && "date" in HashedKeys && "id_number" in HashedKeys;
    assert b["date"] != a["date"];
    assert Part(b, "full_name", fold) == Part(a, "full_name", fold);
    assert Part(b, "id_document", fold) == Part(a, "id_document", fold);
    assert Part(b, "time_start", fold) == Part(a, "time_start", fold);
    var front := a["institution"] + Part(a, "full_name", fold) + Part(a, "id_document", fold);
    assert Part(b, "id_number", fold) + b["date"] == Part(a, "id_number", fold) + a["date"] by {
      assert date == date[..1] + date[1..];
    }
    assert front + Part(b, "id_number", fold) + b["date"] == front + Part(a, "id_number", fold) + a["date"];
  }
}
