/** `do_import`: one pass over the rows of a perucompras export. Each row is read into a
    visit (its date, start and end times through the column fallbacks, the visitor's name
    and document number), keyed by `make_hash`, and staged unless its key was already
    staged in this run or is already in the store. The staged visits are inserted once,
    after the loop; any error on the way (a missing column, a date or time in no known
    format) ends the import before that insert. */
module Import {
  import opened Results
  import opened DateTime
  import opened Hashing

  /** A CSV row, as `csv.DictReader` yields it. */
  type Row = map<string, string>

  // ---------------------------------------------------------------- column fallbacks

  /** `try: parse(row[primary]) except KeyError: parse(row[secondary])`. Only a missing
      column falls back: the primary column decides whenever it is present, even when
      `parse` rejects its value, and a KeyError names the secondary column. */
  function Fallback(row: Row, primary: string, secondary: string, parse: string -> Result<string>): (r: Result<string>)
    ensures primary in row ==> r == parse(row[primary])
    ensures r.Ok? ==> (primary in row && r == parse(row[primary])) || (primary !in row && secondary in row && r == parse(row[secondary]))
    ensures primary !in row && secondary in row ==> r == parse(row[secondary])
    ensures primary !in row && secondary !in row ==> r == Err(KeyError(secondary))
  {
    if primary in row then parse(row[primary])
    else if secondary in row then parse(row[secondary])
    else Err(KeyError(secondary))
  }

  /** `get_visit_date_str`: an ISO date or "", a KeyError naming `fecha`, or the
      ValueError of an unreadable date. */
  function VisitDateStr(row: Row): (r: Result<string>)
    ensures r.Ok? && r.value != "" ==> IsIsoDate(r.value)
    ensures r.Err? ==> r.error == KeyError("fecha") || r.error.FormatError?
  {
    Fallback(row, "fecha_inicio", "fecha", VisitDate)
  }

  /** `get_time_start`: `HH:MM` or "", a KeyError naming `hora_inicio`, or the
      ValueError of an unreadable time. */
  function TimeStart(row: Row): (r: Result<string>)
    ensures r.Ok? && r.value != "" ==> IsClock(r.value)
    ensures r.Err? ==> r.error == KeyError("hora_inicio") || r.error.FormatError?
  {
    Fallback(row, "fecha_inicio", "hora_inicio", Time)
  }

  /** `get_time_end`: `HH:MM` or "", a KeyError naming `hora_fin`, or the ValueError of
      an unreadable time. */
  function TimeEnd(row: Row): (r: Result<string>)
    ensures r.Ok? && r.value != "" ==> IsClock(r.value)
    ensures r.Err? ==> r.error == KeyError("hora_fin") || r.error.FormatError?
  {
    Fallback(row, "fecha_fin", "hora_fin", Time)
  }

  /** `get_id_document`: the row's own document type, "dni" when the column is absent. */
  function IdDocument(row: Row): (r: string)
    ensures "id_document" in row ==> r == row["id_document"]
    ensures r == "dni" <==> "id_document" !in row || row["id_document"] == "dni"
  {
    if "id_document" in row then row["id_document"] else "dni"
  }

  /** `row[key]`. */
  function Column(row: Row, key: string): Result<string> {
    if key in row then Ok(row[key]) else Err(KeyError(key))
  }

  /** The chains of `get_visit_date_str`, `get_time_start` and `get_time_end`: each reads its
      first column when present and its second column otherwise; a chain raises KeyError only
      when both of its columns are missing, and then names the second; the start date and
      start time come from the same cell whenever `fecha_inicio` exists. */
  lemma ColumnChains(row: Row)
    ensures VisitDateStr(row) == Err(KeyError("fecha")) <==> "fecha_inicio" !in row && "fecha" !in row
    ensures TimeStart(row) == Err(KeyError("hora_inicio")) <==> "fecha_inicio" !in row && "hora_inicio" !in row
    ensures TimeEnd(row) == Err(KeyError("hora_fin")) <==> "fecha_fin" !in row && "hora_fin" !in row
    ensures "fecha_inicio" in row ==> VisitDateStr(row) == VisitDate(row["fecha_inicio"]) && TimeStart(row) == Time(row["fecha_inicio"])
    ensures "fecha_inicio" !in row && "fecha" in row ==> VisitDateStr(row) == VisitDate(row["fecha"])
    ensures "fecha_inicio" !in row && "hora_inicio" in row ==> TimeStart(row) == Time(row["hora_inicio"])
    ensures "fecha_fin" in row ==> TimeEnd(row) == Time(row["fecha_fin"])
    ensures "fecha_fin" !in row && "hora_fin" in row ==> TimeEnd(row) == Time(row["hora_fin"])
  {
    if "fecha_inicio" in row {
      assert VisitDate(row["fecha_inicio"]) != Err(KeyError("fecha"));
      assert Time(row["fecha_inicio"]) != Err(KeyError("hora_inicio"));
    } else if "fecha" in row {
      assert VisitDate(row["fecha"]) != Err(KeyError("fecha"));
    }
    if "hora_inicio" in row {
      assert Time(row["hora_inicio"]) != Err(KeyError("hora_inicio"));
    }
    if "fecha_fin" in row {
      assert Time(row["fecha_fin"]) != Err(KeyError("hora_fin"));
    } else if "hora_fin" in row {
      assert Time(row["hora_fin"]) != Err(KeyError("hora_fin"));
    }
  }

  // ---------------------------------------------------------------- one row

  /** What the loop of `do_import` reads from every row, whether or not it turns out to be new. */
  datatype Fields = Fields(date: string, timeStart: string, timeEnd: string, idDocument: string,
                           fullName: string, idNumber: string)

  /** The reads at the top of the loop of `do_import`, in Python's evaluation order: the date, the start time, the end time,
      the document type, then the name and the document number. */
  function ReadRow(row: Row): (r: Result<Fields>)
    ensures r.Ok? <==> && VisitDateStr(row).Ok? && TimeStart(row).Ok? && TimeEnd(row).Ok?
                       && "nombre_visita" in row && "documento" in row
    ensures r.Err? ==> r.error == (if VisitDateStr(row).Err? then VisitDateStr(row).error
                                   else if TimeStart(row).Err? then TimeStart(row).error
                                   else if TimeEnd(row).Err? then TimeEnd(row).error
                                   else KeyError(if "nombre_visita" !in row then "nombre_visita" else "documento"))
    ensures r.Ok? ==> && r.value.date == VisitDateStr(row).value && r.value.timeStart == TimeStart(row).value
                      && r.value.timeEnd == TimeEnd(row).value && r.value.idDocument == IdDocument(row)
                      && r.value.fullName == row["nombre_visita"] && r.value.idNumber == row["documento"]
  {
    var date :- VisitDateStr(row);
    var start :- TimeStart(row);
    var end :- TimeEnd(row);
    var name :- Column(row, "nombre_visita");
    var number :- Column(row, "documento");
    Ok(Fields(date, start, end, IdDocument(row), name, number))
  }

  /** The dictionary `do_import` builds for `make_hash`. Its document type is the literal "dni", whatever the
      row's own `id_document` column says. */
  function ItemOf(f: Fields): (item: Item)
    ensures HashedKeys <= item.Keys && "sha1" !in item
    ensures item["institution"] == "perucompras" && item["id_document"] == "dni"
  {
    map["institution" := "perucompras", "full_name" := f.fullName, "id_document" := "dni",
        "id_number" := f.idNumber, "date" := f.date, "time_start" := f.timeStart, "time_end" := f.timeEnd]
  }

  /** `item["sha1"]` after `make_hash(item)` in `do_import`: the digest of the name, the
      literal "dni", the document number, the date and the start time. End time,
      document type column, company, office, reason and host play no part. */
  function Key(f: Fields, fold: string -> string, digest: string -> string): (h: string)
    ensures h == digest("perucompras" + fold(f.fullName) + fold("dni") + fold(f.idNumber) + f.date + fold(f.timeStart))
  {
    KeyInput(f, fold);
    digest(HashInput(ItemOf(f), fold).value)
  }

  /** The item built from a row never raises in `make_hash`, and what it hashes is the
      institution, the folded name, the folded literal "dni", the folded document number,
      the date and the folded start time. */
  lemma KeyInput(f: Fields, fold: string -> string)
    ensures HashInput(ItemOf(f), fold)
            == Ok("perucompras" + fold(f.fullName) + fold("dni") + fold(f.idNumber) + f.date + fold(f.timeStart))
  {
    var item := ItemOf(f);
    assert item["full_name"] == f.fullName && item["id_document"] == "dni" && item["id_number"] == f.idNumber;
    assert item["date"] == f.date && item["time_start"] == f.timeStart;
  }

  /** Visits that agree on name, document number, date and start time get the same key,
      whatever their end time and document type. */
  lemma KeyIgnoresOtherFields(f: Fields, g: Fields, fold: string -> string, digest: string -> string)
    requires f.fullName == g.fullName && f.idNumber == g.idNumber && f.date == g.date && f.timeStart == g.timeStart
    ensures Key(f, fold, digest) == Key(g, fold, digest)
  {
  }

  /** Two rows that hold the same values in the columns the key is read from get the same
      key: the company, office, reason, host, host title, end time and document type
      columns are ignored. */
  lemma RowKeyIgnoresOtherColumns(a: Row, b: Row, fold: string -> string, digest: string -> string)
    requires ReadRow(a).Ok? && ReadRow(b).Ok?
    requires forall k :: k in ["nombre_visita", "documento", "fecha_inicio", "fecha", "hora_inicio"] ==>
               (k in a <==> k in b) && (k in a ==> a[k] == b[k])
    ensures Key(ReadRow(a).value, fold, digest) == Key(ReadRow(b).value, fold, digest)
  {
    assert "nombre_visita" in ["nombre_visita", "documento", "fecha_inicio", "fecha", "hora_inicio"];
    assert "documento" in ["nombre_visita", "documento", "fecha_inicio", "fecha", "hora_inicio"];
    assert "fecha_inicio" in ["nombre_visita", "documento", "fecha_inicio", "fecha", "hora_inicio"];
    assert "fecha" in ["nombre_visita", "documento", "fecha_inicio", "fecha", "hora_inicio"];
    assert "hora_inicio" in ["nombre_visita", "documento", "fecha_inicio", "fecha", "hora_inicio"];
    assert VisitDateStr(a) == VisitDateStr(b) && TimeStart(a) == TimeStart(b);
    KeyIgnoresOtherFields(ReadRow(a).value, ReadRow(b).value, fold, digest);
  }

  // ---------------------------------------------------------------- staging

  /** `Visitor`, with the fields the importer fills. */
  datatype Visitor = Visitor(date: string, institution: string, sha1: string, fullName: string,
                             entity: string, office: string, idDocument: string, idNumber: string,
                             reason: string, hostName: string, timeStart: string, timeEnd: string,
                             hostTitle: string)

  /** The `Visitor` that `do_import` builds for a row whose key is new: the host title defaults to "", and the
      company, office, reason and host columns are required, in that order. */
  function NewVisitor(row: Row, f: Fields, sha1: string): (r: Result<Visitor>)
    ensures r.Ok? <==> "empresa" in row && "area" in row && "motivo" in row && "contacto" in row
    ensures r.Err? ==> r.error == KeyError(if "empresa" !in row then "empresa" else if "area" !in row then "area"
                                           else if "motivo" !in row then "motivo" else "contacto")
    ensures r.Ok? ==> && r.value.sha1 == sha1 && r.value.institution == "perucompras"
                      && r.value.hostTitle == (if "cargo_contacto" in row then row["cargo_contacto"] else "")
                      && r.value.entity == row["empresa"] && r.value.office == row["area"]
                      && r.value.reason == row["motivo"] && r.value.hostName == row["contacto"]
                      && r.value.date == f.date && r.value.fullName == f.fullName && r.value.idDocument == f.idDocument
                      && r.value.idNumber == f.idNumber && r.value.timeStart == f.timeStart && r.value.timeEnd == f.timeEnd
  {
    var hostTitle := if "cargo_contacto" in row then row["cargo_contacto"] else "";
    var entity :- Column(row, "empresa");
    var office :- Column(row, "area");
    var reason :- Column(row, "motivo");
    var hostName :- Column(row, "contacto");
    Ok(Visitor(f.date, "perucompras", sha1, f.fullName, entity, office, f.idDocument, f.idNumber,
               reason, hostName, f.timeStart, f.timeEnd, hostTitle))
  }

  /** The `hashes` list kept beside the staged visitors. */
  function Sha1List(vs: seq<Visitor>): (hs: seq<string>)
    ensures |hs| == |vs| && forall i :: 0 <= i < |vs| ==> hs[i] == vs[i].sha1
  {
    seq(|vs|, i requires 0 <= i < |vs| => vs[i].sha1)
  }

  lemma Sha1ListAppend(vs: seq<Visitor>, v: Visitor)
    ensures Sha1List(vs + [v]) == Sha1List(vs) + [v.sha1]
  {
    assert forall i :: 0 <= i < |vs| ==> (vs + [v])[i] == vs[i];
  }

  function Sha1Set(vs: seq<Visitor>): set<string> {
    set v | v in vs :: v.sha1
  }

  /** How the loop reads a row and keys it. The importer of `do_import` is
      `Perucompras`; the staging lemmas below hold for any reader and key. */
  datatype Importer = Importer(read: Row -> Result<Fields>, key: Fields -> string)

  function Perucompras(fold: string -> string, digest: string -> string): Importer {
    Importer(ReadRow, f => Key(f, fold, digest))
  }

  /** One iteration of the loop of `do_import`, given what earlier rows staged and the
      keys already in the store. A row that cannot be read stops the loop with its error; a row whose key was
      staged earlier or is in the store adds nothing; otherwise exactly one visitor is
      appended, under the row's key, or the KeyError of a missing required column stops
      the loop. */
  function StepRow(staged: seq<Visitor>, row: Row, existing: set<string>, imp: Importer): (r: Result<seq<Visitor>>)
    ensures imp.read(row).Err? ==> r == Err(imp.read(row).error)
    ensures imp.read(row).Ok? && (imp.key(imp.read(row).value) in Sha1List(staged) || imp.key(imp.read(row).value) in existing)
            ==> r == Ok(staged)
    ensures r.Ok? && r.value != staged ==>
              && imp.read(row).Ok? && |r.value| == |staged| + 1 && r.value[..|staged|] == staged
              && r.value[|staged|].sha1 == imp.key(imp.read(row).value)
              && r.value[|staged|].sha1 !in Sha1List(staged) && r.value[|staged|].sha1 !in existing
    ensures imp.read(row).Ok? && imp.key(imp.read(row).value) !in Sha1List(staged) && imp.key(imp.read(row).value) !in existing
            ==> var nv := NewVisitor(row, imp.read(row).value, imp.key(imp.read(row).value));
                r == (if nv.Ok? then Ok(staged + [nv.value]) else Err(nv.error))
  {
    var f :- imp.read(row);
    var h := imp.key(f);
    if h in Sha1List(staged) then Ok(staged)
    else if h in existing then Ok(staged)
    else
      var v :- NewVisitor(row, f, h);
      Ok(staged + [v])
  }

  /** The visitors the loop has staged after `rows`, or the error that stopped it. */
  function Staged(rows: seq<Row>, existing: set<string>, imp: Importer): (r: Result<seq<Visitor>>)
    ensures r.Ok? ==> |r.value| <= |rows|
    decreases |rows|
  {
    if rows == [] then Ok([])
    else
      var prior :- Staged(rows[..|rows| - 1], existing, imp);
      StepRow(prior, rows[|rows| - 1], existing, imp)
  }

  predicate Distinct(hs: seq<string>) {
    forall i, j :: 0 <= i < j < |hs| ==> hs[i] != hs[j]
  }

  /** The key of row `i`, read successfully. */
  predicate KeyedAs(rows: seq<Row>, i: int, imp: Importer, h: string) {
    0 <= i < |rows| && imp.read(rows[i]).Ok? && imp.key(imp.read(rows[i]).value) == h
  }

  /** Row `i` is the first row keyed `h`. */
  predicate FirstKeyedAs(rows: seq<Row>, i: int, imp: Importer, h: string) {
    KeyedAs(rows, i, imp, h) && forall j :: 0 <= j < i ==> !KeyedAs(rows, j, imp, h)
  }

  lemma Sha1SetInList(vs: seq<Visitor>)
    ensures forall h :: h in Sha1Set(vs) ==> h in Sha1List(vs)
  {
    forall h | h in Sha1Set(vs)
      ensures h in Sha1List(vs)
    {
      var v :| v in vs && v.sha1 == h;
      var k :| 0 <= k < |vs| && vs[k] == v;
      assert Sha1List(vs)[k] == h;
    }
  }

  /** Once a row fails, the whole import fails with that row's error. */
  lemma {:induction false} StagedErrorSticks(rows: seq<Row>, j: nat, existing: set<string>, imp: Importer)
    requires j <= |rows| && Staged(rows[..j], existing, imp).Err?
    ensures Staged(rows, existing, imp) == Staged(rows[..j], existing, imp)
    decreases |rows| - j
  {
    if j < |rows| {
      assert rows[..j + 1][..j] == rows[..j];
      StagedErrorSticks(rows, j + 1, existing, imp);
    } else {
      assert rows[..j] == rows;
    }
  }

  /** The staged visitors have pairwise distinct keys, none of them already in the store. */
  lemma {:induction false} StagedFreshAndDistinct(rows: seq<Row>, existing: set<string>, imp: Importer)
    requires Staged(rows, existing, imp).Ok?
    ensures Distinct(Sha1List(Staged(rows, existing, imp).value))
    ensures forall v :: v in Staged(rows, existing, imp).value ==> v.sha1 !in existing
  {
    if rows != [] {
      var prior := Staged(rows[..|rows| - 1], existing, imp).value;
      StagedFreshAndDistinct(rows[..|rows| - 1], existing, imp);
      var vs := Staged(rows, existing, imp).value;
      if vs != prior {
        var f := imp.read(rows[|rows| - 1]).value;
        var v := NewVisitor(rows[|rows| - 1], f, imp.key(f)).value;
        assert vs == prior + [v] && v.sha1 == imp.key(f);
        assert Sha1List(vs) == Sha1List(prior) + [v.sha1];
      }
    }
  }

  /** Every row was read, and its key ends up either in the store already or among the
      staged visitors. */
  lemma {:induction false} StagedCoversRows(rows: seq<Row>, existing: set<string>, imp: Importer)
    requires Staged(rows, existing, imp).Ok?
    ensures forall i :: 0 <= i < |rows| ==>
              && imp.read(rows[i]).Ok?
              && imp.key(imp.read(rows[i]).value) in existing + Sha1Set(Staged(rows, existing, imp).value)
  {
    if rows != [] {
      var front := rows[..|rows| - 1];
      StagedCoversRows(front, existing, imp);
      var prior := Staged(front, existing, imp).value;
      var vs := Staged(rows, existing, imp).value;
      assert Sha1Set(prior) <= Sha1Set(vs);
      forall i | 0 <= i < |rows|
        ensures imp.read(rows[i]).Ok? && imp.key(imp.read(rows[i]).value) in existing + Sha1Set(vs)
      {
        if i < |rows| - 1 {
          assert rows[i] == front[i];
        } else {
          var h := imp.key(imp.read(rows[i]).value);
          if h in Sha1List(prior) {
            var k :| 0 <= k < |prior| && Sha1List(prior)[k] == h;
            assert prior[k] in prior;
          }
        }
      }
    }
  }

  /** Every staged visitor was built from the first row carrying its key: a later row
      with the same key, whatever its other columns, is skipped. */
  lemma {:induction false} StagedFromRows(rows: seq<Row>, existing: set<string>, imp: Importer)
    requires Staged(rows, existing, imp).Ok?
    ensures forall v :: v in Staged(rows, existing, imp).value ==>
              exists i :: FirstKeyedAs(rows, i, imp, v.sha1) && NewVisitor(rows[i], imp.read(rows[i]).value, v.sha1) == Ok(v)
  {
    if rows != [] {
      var front := rows[..|rows| - 1];
      StagedFromRows(front, existing, imp);
      StagedCoversRows(front, existing, imp);
      var prior := Staged(front, existing, imp).value;
      Sha1SetInList(prior);
      assert forall j :: 0 <= j < |front| ==> rows[j] == front[j];
      forall v | v in Staged(rows, existing, imp).value
        ensures exists i :: FirstKeyedAs(rows, i, imp, v.sha1) && NewVisitor(rows[i], imp.read(rows[i]).value, v.sha1) == Ok(v)
      {
        if v in prior {
          var i :| FirstKeyedAs(front, i, imp, v.sha1) && NewVisitor(front[i], imp.read(front[i]).value, v.sha1) == Ok(v);
          assert forall j :: 0 <= j <= i ==> KeyedAs(rows, j, imp, v.sha1) == KeyedAs(front, j, imp, v.sha1);
          assert FirstKeyedAs(rows, i, imp, v.sha1);
        } else {
          var last := |rows| - 1;
          assert KeyedAs(rows, last, imp, v.sha1);
          forall j | 0 <= j < last
            ensures !KeyedAs(rows, j, imp, v.sha1)
          {
            assert imp.key(imp.read(front[j]).value) in existing + Sha1Set(prior);
          }
          assert FirstKeyedAs(rows, last, imp, v.sha1);
        }
      }
    }
  }

  /** Rows whose keys are all known stage nothing. */
  lemma {:induction false} KnownRowsStageNothing(rows: seq<Row>, known: set<string>, imp: Importer)
    requires forall i :: 0 <= i < |rows| ==> imp.read(rows[i]).Ok? && imp.key(imp.read(rows[i]).value) in known
    ensures Staged(rows, known, imp) == Ok([])
  {
    if rows != [] {
      var front := rows[..|rows| - 1];
      assert forall i :: 0 <= i < |front| ==> front[i] == rows[i];
      KnownRowsStageNothing(front, known, imp);
    }
  }

  /** Importing the same rows a second time, against a store that now holds the first
      run's visitors, stages nothing. */
  lemma SecondRunStagesNothing(rows: seq<Row>, existing: set<string>, imp: Importer)
    requires Staged(rows, existing, imp).Ok?
    ensures Staged(rows, existing + Sha1Set(Staged(rows, existing, imp).value), imp) == Ok([])
  {
    StagedCoversRows(rows, existing, imp);
    KnownRowsStageNothing(rows, existing + Sha1Set(Staged(rows, existing, imp).value), imp);
  }

  /** A row whose key an earlier row already had adds nothing. */
  lemma RepeatedKeyAddsNothing(rows: seq<Row>, row: Row, existing: set<string>, imp: Importer, i: nat)
    requires Staged(rows, existing, imp).Ok? && imp.read(row).Ok?
    requires KeyedAs(rows, i, imp, imp.key(imp.read(row).value))
    ensures Staged(rows + [row], existing, imp) == Staged(rows, existing, imp)
  {
    StagedCoversRows(rows, existing, imp);
    var vs := Staged(rows, existing, imp).value;
    var h := imp.key(imp.read(row).value);
    assert (rows + [row])[..|rows|] == rows;
    if h !in existing {
      var v :| v in vs && v.sha1 == h;
      var k :| 0 <= k < |vs| && vs[k] == v;
      assert Sha1List(vs)[k] == h;
    }
  }

  // ---------------------------------------------------------------- the store and the loop

  /** `Visitor.objects`: the stored visitors and the set of their keys, which
      `Visitor.objects.filter(sha1=...)` consults. */
  class Store {
    var sha1s: set<string>
    var records: seq<Visitor>

    ghost predicate Valid()
      reads this
    {
      sha1s == Sha1Set(records)
    }

    constructor (records: seq<Visitor>)
      ensures Valid() && this.records == records
    {
      this.records := records;
      this.sha1s := Sha1Set(records);
    }

    /** `Visitor.objects.filter(sha1=sha1)` is not empty. */
    function Has(sha1: string): (b: bool)
      reads this
      requires Valid()
      ensures b <==> exists v :: v in records && v.sha1 == sha1
    {
      sha1 in sha1s
    }

    /** `Visitor.objects.bulk_create(vs)`. */
    method BulkCreate(vs: seq<Visitor>)
      requires Valid()
      modifies this
      ensures Valid()
      ensures records == old(records) + vs && sha1s == old(sha1s) + Sha1Set(vs)
    {
      records := records + vs;
      sha1s := sha1s + Sha1Set(vs);
      assert Sha1Set(records) == old(Sha1Set(records)) + Sha1Set(vs) by {
        assert forall v :: v in records <==> v in old(records) || v in vs;
      }
    }
  }

  /** The start of the loop of `do_import`: read a row and compute its key with `make_hash`. */
  method ReadAndHash(row: Row, fold: string -> string, digest: string -> string)
    returns (r: Result<Fields>, hash: string)
    ensures r == ReadRow(row)
    ensures r.Ok? ==> hash == Key(r.value, fold, digest)
  {
    hash := "";
    r := ReadRow(row);
    if r.Ok? {
      var item := ItemOf(r.value);
      assert "institution" in item && "date" in item;
      var hashed := MakeHash(item, fold, digest);
      hash := hashed.value["sha1"];
    }
  }

  /** The rest of the body of the loop of `do_import`, once the row is read and keyed:
      stage a visitor unless the key is already staged or already in the store. It holds
      for any importer, given what that importer reads and keys. */
  method StageRow(store: Store, visitors: seq<Visitor>, hashes: seq<string>, row: Row,
                  read: Result<Fields>, hash: string, ghost imp: Importer)
    returns (r: Result<seq<Visitor>>, hashes': seq<string>)
    requires store.Valid() && hashes == Sha1List(visitors)
    requires read == imp.read(row) && (read.Ok? ==> hash == imp.key(read.value))
    ensures r == StepRow(visitors, row, store.sha1s, imp)
    ensures r.Ok? ==> hashes' == Sha1List(r.value)
  {
    hashes' := hashes;
    if read.Err? {
      return Err(read.error), hashes';
    }
    if hash in hashes || store.Has(hash) {
      return Ok(visitors), hashes';
    }
    var built := NewVisitor(row, read.value, hash);
    if built.Err? {
      return Err(built.error), hashes';
    }
    Sha1ListAppend(visitors, built.value);
    hashes' := hashes + [hash];
    r := Ok(visitors + [built.value]);
  }

  /** `do_import`: stage every row, then insert the staged visitors in one `bulk_create`.
      An error in any row leaves the store as it was. */
  method DoImport(store: Store, rows: seq<Row>, fold: string -> string, digest: string -> string)
    returns (r: Result<nat>)
    requires store.Valid()
    modifies store
    ensures store.Valid()
    ensures Staged(rows, old(store.sha1s), Perucompras(fold, digest)).Err? ==>
              && r == Err(Staged(rows, old(store.sha1s), Perucompras(fold, digest)).error)
              && store.records == old(store.records) && store.sha1s == old(store.sha1s)
    ensures Staged(rows, old(store.sha1s), Perucompras(fold, digest)).Ok? ==>
              && r == Ok(|Staged(rows, old(store.sha1s), Perucompras(fold, digest)).value|)
              && store.records == old(store.records) + Staged(rows, old(store.sha1s), Perucompras(fold, digest)).value
              && store.sha1s == old(store.sha1s) + Sha1Set(Staged(rows, old(store.sha1s), Perucompras(fold, digest)).value)
  {
    var visitors: seq<Visitor> := [];
    var hashes: seq<string> := [];
    ghost var existing := store.sha1s;
    ghost var imp := Perucompras(fold, digest);
    for i := 0 to |rows|
      invariant Staged(rows[..i], existing, imp) == Ok(visitors)
      invariant hashes == Sha1List(visitors)
      invariant store.sha1s == existing && store.records == old(store.records) && store.Valid()
    {
      assert rows[..i + 1][..i] == rows[..i] && rows[..i + 1][i] == rows[i];
      var read, hash := ReadAndHash(rows[i], fold, digest);
      var step, stepHashes := StageRow(store, visitors, hashes, rows[i], read, hash, imp);
      if step.Err? {
        StagedErrorSticks(rows, i + 1, existing, imp);
        return Err(step.error);
      }
      visitors, hashes := step.value, stepHashes;
    }
    assert rows[..|rows|] == rows;
    store.BulkCreate(visitors);
    r := Ok(|visitors|);
  }
}
