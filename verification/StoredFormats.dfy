/** The stored form of a record schema with every shared definition inlined
    (tools/stored_formats.py). Schemas are JSON values; a reference is an object whose `$ref`
    names a definition of the same document.
 */
module StoredFormats {

  datatype Json =
    | Null
    | Bool(b: bool)
    | Num(n: int)
    | Str(s: string)
    | Arr(items: seq<Json>)
    | Obj(fields: map<string, Json>)

  // The inlined schema, or a refusal: an absent or unusable definition raises.
  datatype Outcome = Done(value: Json) | Refused

  const REF := "$ref"
  const COMMENT := "$comment"
  const LOCAL := "#/$defs/"

  predicate IsLocal(reference: string) {
    LOCAL <= reference
  }

  function LocalName(reference: string): string
    requires IsLocal(reference)
  {
    reference[|LOCAL|..]
  }

  predicate RefersLocally(fields: map<string, Json>) {
    REF in fields && fields[REF].Str? && IsLocal(fields[REF].s)
  }

  function Beside(fields: map<string, Json>): map<string, Json> {
    fields - {REF}
  }

  predicate DeclaresName(definition: Json) {
    definition.Obj? && COMMENT in definition.fields && definition.fields[COMMENT].Str?
  }

  function Expanded(expanding: seq<string>): set<string> {
    set n | n in expanding
  }

  // Definitions still to expand, then the schema's own structure: the recursion ends on every
  // definition set, mutually recursive ones included.
  function Inlined(schema: Json, definitions: map<string, Json>, expanding: seq<string>): (r: Outcome)
    ensures r.Done? ==> (r.value.Obj? <==> schema.Obj?)
    ensures r.Done? && (schema.Str? || r.value.Str?) ==> r.value == schema
    decreases definitions.Keys - Expanded(expanding), schema
  {
    match schema
    case Obj(fields) =>
      if RefersLocally(fields) then
        var name := LocalName(fields[REF].s);
        if name !in definitions then Refused
        else if name in expanding then
          if DeclaresName(definitions[name]) then
            Done(Obj(Beside(fields)[REF := definitions[name].fields[COMMENT]]))
          else Refused
        else if definitions[name].Obj? then
          assert name in definitions.Keys - Expanded(expanding)
              && name !in definitions.Keys - Expanded(expanding + [name]);
          Inlined(Obj(definitions[name].fields + Beside(fields)), definitions, expanding + [name])
        else Refused
      else
        var inner := map k | k in fields :: Inlined(fields[k], definitions, expanding);
        if forall k :: k in inner ==> inner[k].Done? then Done(Obj(map k | k in inner :: inner[k].value))
        else Refused
    case Arr(items) =>
      var inner := seq(|items|, i requires 0 <= i < |items| => Inlined(items[i], definitions, expanding));
      if forall i :: 0 <= i < |inner| ==> inner[i].Done? then
        Done(Arr(seq(|inner|, i requires 0 <= i < |inner| => inner[i].value)))
      else Refused
    case _ => Done(schema)
  }

  // An object that is no reference is inlined key by key.
  lemma InlinedFields(fields: map<string, Json>, definitions: map<string, Json>, expanding: seq<string>)
    requires !RefersLocally(fields)
    ensures
      var r := Inlined(Obj(fields), definitions, expanding);
      && (r.Done? <==> forall k :: k in fields ==> Inlined(fields[k], definitions, expanding).Done?)
      && (r.Done? ==> r.value.fields.Keys == fields.Keys
                      && forall k :: k in fields ==> r.value.fields[k]
                                                     == Inlined(fields[k], definitions, expanding).value)
  {
    var inner := map k | k in fields :: Inlined(fields[k], definitions, expanding);
    assert forall k :: k in fields ==> inner[k] == Inlined(fields[k], definitions, expanding);
  }

  lemma InlinedItems(items: seq<Json>, definitions: map<string, Json>, expanding: seq<string>)
    ensures
      var r := Inlined(Arr(items), definitions, expanding);
      && (r.Done? <==> forall i :: 0 <= i < |items| ==> Inlined(items[i], definitions, expanding).Done?)
      && (r.Done? ==> r.value.Arr? && |r.value.items| == |items|
                      && forall i :: 0 <= i < |items| ==> r.value.items[i]
                                                          == Inlined(items[i], definitions, expanding).value)
  {
    var inner := seq(|items|, i requires 0 <= i < |items| => Inlined(items[i], definitions, expanding));
    assert forall i :: 0 <= i < |items| ==> inner[i] == Inlined(items[i], definitions, expanding);
  }

  // ---- What inlining needs ------------------------------------------------------------------------

  // The references inlining meets: each name, and whether it is met inside its own definition.
  function Met(schema: Json, definitions: map<string, Json>, expanding: seq<string>): set<(string, bool)>
    decreases definitions.Keys - Expanded(expanding), schema
  {
    match schema
    case Obj(fields) =>
      if RefersLocally(fields) then
        var name := LocalName(fields[REF].s);
        if name in expanding then {(name, true)}
        else if name in definitions && definitions[name].Obj? then
          assert name in definitions.Keys - Expanded(expanding)
              && name !in definitions.Keys - Expanded(expanding + [name]);
          {(name, false)} + Met(Obj(definitions[name].fields + Beside(fields)), definitions, expanding + [name])
        else {(name, false)}
      else set k, r | k in fields && r in Met(fields[k], definitions, expanding) :: r
    case Arr(items) => set i, r | 0 <= i < |items| && r in Met(items[i], definitions, expanding) :: r
    case _ => {}
  }

  // A met reference is defined: by a schema, or by a declaration with a name where it recurs.
  predicate Usable(definitions: map<string, Json>, r: (string, bool)) {
    r.0 in definitions && if r.1 then DeclaresName(definitions[r.0]) else definitions[r.0].Obj?
  }

  ghost predicate AllUsable(schema: Json, definitions: map<string, Json>, expanding: seq<string>) {
    forall r :: r in Met(schema, definitions, expanding) ==> Usable(definitions, r)
  }

  // Inlining succeeds exactly when every reference it meets is usable.
  lemma {:induction false} InlinedExactlyWhenUsable(schema: Json, definitions: map<string, Json>,
                                                    expanding: seq<string>)
    ensures Inlined(schema, definitions, expanding).Done? <==> AllUsable(schema, definitions, expanding)
    decreases definitions.Keys - Expanded(expanding), schema
  {
    match schema {
      case Obj(fields) =>
        if RefersLocally(fields) {
          var name := LocalName(fields[REF].s);
          assert (name, name in expanding) in Met(schema, definitions, expanding);
          if name in definitions && name !in expanding && definitions[name].Obj? {
            assert name in definitions.Keys - Expanded(expanding)
                && name !in definitions.Keys - Expanded(expanding + [name]);
            InlinedExactlyWhenUsable(Obj(definitions[name].fields + Beside(fields)), definitions, expanding + [name]);
          }
        } else {
          InlinedFields(fields, definitions, expanding);
          forall k | k in fields ensures Inlined(fields[k], definitions, expanding).Done?
              <==> AllUsable(fields[k], definitions, expanding) {
            InlinedExactlyWhenUsable(fields[k], definitions, expanding);
          }
          FieldsMeet(fields, definitions, expanding);
        }
      case Arr(items) =>
        InlinedItems(items, definitions, expanding);
        forall i | 0 <= i < |items| ensures Inlined(items[i], definitions, expanding).Done?
            <==> AllUsable(items[i], definitions, expanding) {
          InlinedExactlyWhenUsable(items[i], definitions, expanding);
        }
        ItemsMeet(items, definitions, expanding);
      case _ =>
    }
  }

  lemma FieldsMeet(fields: map<string, Json>, definitions: map<string, Json>, expanding: seq<string>)
    requires !RefersLocally(fields)
    ensures AllUsable(Obj(fields), definitions, expanding)
            <==> forall k :: k in fields ==> AllUsable(fields[k], definitions, expanding)
  {
    assert forall k, r :: k in fields && r in Met(fields[k], definitions, expanding)
                          ==> r in Met(Obj(fields), definitions, expanding);
    assert forall r :: r in Met(Obj(fields), definitions, expanding)
                       ==> exists k :: k in fields && r in Met(fields[k], definitions, expanding);
  }

  lemma ItemsMeet(items: seq<Json>, definitions: map<string, Json>, expanding: seq<string>)
    ensures AllUsable(Arr(items), definitions, expanding)
            <==> forall i :: 0 <= i < |items| ==> AllUsable(items[i], definitions, expanding)
  {
    assert forall i, r :: 0 <= i < |items| && r in Met(items[i], definitions, expanding)
                          ==> r in Met(Arr(items), definitions, expanding);
    assert forall r :: r in Met(Arr(items), definitions, expanding)
                       ==> exists i :: 0 <= i < |items| && r in Met(items[i], definitions, expanding);
  }

  // A document whose references are all defined by schemas.
  predicate Closed(j: Json, definitions: map<string, Json>) {
    match j
    case Obj(fields) =>
      && (RefersLocally(fields) ==> LocalName(fields[REF].s) in definitions)
      && forall k :: k in fields ==> Closed(fields[k], definitions)
    case Arr(items) => forall i :: 0 <= i < |items| ==> Closed(items[i], definitions)
    case _ => true
  }

  predicate ClosedDefinitions(definitions: map<string, Json>) {
    forall n :: n in definitions ==> definitions[n].Obj? && Closed(definitions[n], definitions)
  }

  lemma {:induction false} ClosedMeetsItsOwn(schema: Json, definitions: map<string, Json>, expanding: seq<string>,
                                             r: (string, bool))
    requires Closed(schema, definitions) && ClosedDefinitions(definitions) && r in Met(schema, definitions, expanding)
    ensures r.0 in definitions && definitions[r.0].Obj?
    decreases definitions.Keys - Expanded(expanding), schema
  {
    match schema {
      case Obj(fields) =>
        if RefersLocally(fields) {
          var name := LocalName(fields[REF].s);
          if name !in expanding && r != (name, false) {
            assert name in definitions.Keys - Expanded(expanding)
                && name !in definitions.Keys - Expanded(expanding + [name]);
            var merged := definitions[name].fields + Beside(fields);
            assert RefersLocally(merged) ==> RefersLocally(definitions[name].fields)
                                             && merged[REF] == definitions[name].fields[REF];
            ClosedMeetsItsOwn(Obj(merged), definitions, expanding + [name], r);
          }
        } else {
          var k :| k in fields && r in Met(fields[k], definitions, expanding);
          ClosedMeetsItsOwn(fields[k], definitions, expanding, r);
        }
      case Arr(items) =>
        var i :| 0 <= i < |items| && r in Met(items[i], definitions, expanding);
        ClosedMeetsItsOwn(items[i], definitions, expanding, r);
      case _ =>
    }
  }

  // So a closed document is inlined exactly when every definition met inside itself declares a name; one
  // that is not recursive needs none.
  lemma ClosedIsInlined(schema: Json, definitions: map<string, Json>, expanding: seq<string>)
    requires Closed(schema, definitions) && ClosedDefinitions(definitions)
    ensures Inlined(schema, definitions, expanding).Done?
            <==> forall n :: n in definitions && (n, true) in Met(schema, definitions, expanding)
                             ==> DeclaresName(definitions[n])
  {
    InlinedExactlyWhenUsable(schema, definitions, expanding);
    forall r | r in Met(schema, definitions, expanding) ensures r.0 in definitions && definitions[r.0].Obj? {
      ClosedMeetsItsOwn(schema, definitions, expanding, r);
    }
    if forall n :: n in definitions && (n, true) in Met(schema, definitions, expanding)
        ==> DeclaresName(definitions[n]) {
      forall r | r in Met(schema, definitions, expanding) ensures Usable(definitions, r) {
        assert r == (r.0, r.1);
      }
    }
  }

  // ---- No document-local name survives --------------------------------------------------------

  predicate LocalFree(j: Json) {
    match j
    case Obj(fields) => !RefersLocally(fields) && forall k :: k in fields ==> LocalFree(fields[k])
    case Arr(items) => forall i :: 0 <= i < |items| ==> LocalFree(items[i])
    case _ => true
  }

  // At every reference met inside its own definition, the declaration's name is not itself
  // document-local and the keys beside the reference hold no local reference.
  predicate Settles(schema: Json, definitions: map<string, Json>, expanding: seq<string>)
    decreases definitions.Keys - Expanded(expanding), schema
  {
    match schema
    case Obj(fields) =>
      if RefersLocally(fields) then
        var name := LocalName(fields[REF].s);
        if name !in definitions || !definitions[name].Obj? then true
        else if name in expanding then
          DeclaresName(definitions[name]) ==>
            !IsLocal(definitions[name].fields[COMMENT].s) && LocalFree(Obj(Beside(fields)))
        else
          assert name in definitions.Keys - Expanded(expanding)
              && name !in definitions.Keys - Expanded(expanding + [name]);
          Settles(Obj(definitions[name].fields + Beside(fields)), definitions, expanding + [name])
      else forall k :: k in fields ==> Settles(fields[k], definitions, expanding)
    case Arr(items) => forall i :: 0 <= i < |items| ==> Settles(items[i], definitions, expanding)
    case _ => true
  }

  // The result names no document-local definition exactly when every recursive reference settles.
  lemma {:induction false} LocalFreeExactlyWhenSettled(schema: Json, definitions: map<string, Json>,
                                                       expanding: seq<string>)
    requires Inlined(schema, definitions, expanding).Done?
    ensures LocalFree(Inlined(schema, definitions, expanding).value) <==> Settles(schema, definitions, expanding)
    decreases definitions.Keys - Expanded(expanding), schema
  {
    var r := Inlined(schema, definitions, expanding).value;
    match schema {
      case Obj(fields) =>
        if RefersLocally(fields) {
          var name := LocalName(fields[REF].s);
          if name in expanding {
            assert forall k :: k in Beside(fields) ==> r.fields[k] == Beside(fields)[k];
          } else {
            assert name in definitions.Keys - Expanded(expanding)
                && name !in definitions.Keys - Expanded(expanding + [name]);
            LocalFreeExactlyWhenSettled(Obj(definitions[name].fields + Beside(fields)), definitions,
                expanding + [name]);
          }
        } else {
          InlinedFields(fields, definitions, expanding);
          forall k | k in fields
            ensures LocalFree(r.fields[k]) <==> Settles(fields[k], definitions, expanding)
          {
            LocalFreeExactlyWhenSettled(fields[k], definitions, expanding);
          }
        }
      case Arr(items) =>
        InlinedItems(items, definitions, expanding);
        forall i | 0 <= i < |items|
          ensures LocalFree(r.items[i]) <==> Settles(items[i], definitions, expanding)
        {
          LocalFreeExactlyWhenSettled(items[i], definitions, expanding);
        }
      case _ =>
    }
  }

  // A condition on the document alone: no reference holds another reference beside it.
  predicate PlainReferences(j: Json) {
    match j
    case Obj(fields) =>
      && (RefersLocally(fields) ==> LocalFree(Obj(Beside(fields))))
      && forall k :: k in fields ==> PlainReferences(fields[k])
    case Arr(items) => forall i :: 0 <= i < |items| ==> PlainReferences(items[i])
    case _ => true
  }

  predicate PlainDefinitions(definitions: map<string, Json>) {
    forall n :: n in definitions ==>
                  && PlainReferences(definitions[n])
                  && (DeclaresName(definitions[n]) ==> !IsLocal(definitions[n].fields[COMMENT].s))
  }

  lemma {:induction false} LocalFreeIsPlain(j: Json)
    requires LocalFree(j)
    ensures PlainReferences(j)
  {
    match j {
      case Obj(fields) => forall k | k in fields ensures PlainReferences(fields[k]) { LocalFreeIsPlain(fields[k]); }
      case Arr(items) => forall i | 0 <= i < |items| ensures PlainReferences(items[i]) { LocalFreeIsPlain(items[i]); }
      case _ =>
    }
  }

  // Laying plain keys over a plain definition stays plain.
  lemma MergedIsPlain(definition: map<string, Json>, fields: map<string, Json>)
    requires PlainReferences(Obj(definition)) && RefersLocally(fields) && PlainReferences(Obj(fields))
    ensures PlainReferences(Obj(definition + Beside(fields)))
  {
    var merged := definition + Beside(fields);
    LocalFreeIsPlain(Obj(Beside(fields)));
    if RefersLocally(merged) {
      forall k | k in Beside(merged)
        ensures LocalFree(Beside(merged)[k])
      {
        if k in Beside(fields) {
          assert LocalFree(Beside(fields)[k]);
        } else {
          assert k in Beside(definition);
          assert LocalFree(Beside(definition)[k]);
        }
      }
    }
  }

  lemma {:induction false} PlainReferencesSettle(schema: Json, definitions: map<string, Json>, expanding: seq<string>)
    requires PlainReferences(schema) && PlainDefinitions(definitions)
    ensures Settles(schema, definitions, expanding)
    decreases definitions.Keys - Expanded(expanding), schema
  {
    match schema {
      case Obj(fields) =>
        if RefersLocally(fields) {
          var name := LocalName(fields[REF].s);
          if name in definitions && definitions[name].Obj? && name !in expanding {
            assert name in definitions.Keys - Expanded(expanding)
                && name !in definitions.Keys - Expanded(expanding + [name]);
            MergedIsPlain(definitions[name].fields, fields);
            PlainReferencesSettle(Obj(definitions[name].fields + Beside(fields)), definitions, expanding + [name]);
          }
        } else {
          forall k | k in fields ensures Settles(fields[k], definitions, expanding) {
            PlainReferencesSettle(fields[k], definitions, expanding);
          }
        }
      case Arr(items) =>
        forall i | 0 <= i < |items| ensures Settles(items[i], definitions, expanding) {
          PlainReferencesSettle(items[i], definitions, expanding);
        }
      case _ =>
    }
  }

  // ---- Definition names do not matter ---------------------------------------------------------

  ghost predicate OneToOne(f: string -> string) {
    forall a, b :: f(a) == f(b) ==> a == b
  }

  // The same document with every definition renamed, at each reference to it.
  function Renamed(j: Json, f: string -> string): Json {
    match j
    case Obj(fields) =>
      Obj(map k | k in fields ::
            if k == REF && RefersLocally(fields) then Str(LOCAL + f(LocalName(fields[REF].s)))
            else Renamed(fields[k], f))
    case Arr(items) => Arr(seq(|items|, i requires 0 <= i < |items| => Renamed(items[i], f)))
    case _ => j
  }

  ghost function RenamedDefinitions(definitions: map<string, Json>, f: string -> string): (r: map<string, Json>)
    requires OneToOne(f)
    ensures forall n :: f(n) in r <==> n in definitions
    ensures forall n :: n in definitions ==> r[f(n)] == Renamed(definitions[n], f)
  {
    map n | n in definitions :: f(n) := Renamed(definitions[n], f)
  }

  function RenamedAll(names: seq<string>, f: string -> string): (r: seq<string>)
    ensures |r| == |names| && forall i :: 0 <= i < |r| ==> r[i] == f(names[i])
  {
    seq(|names|, i requires 0 <= i < |names| => f(names[i]))
  }

  // Every local reference keeps its name.
  predicate Still(j: Json, f: string -> string) {
    match j
    case Obj(fields) =>
      && (RefersLocally(fields) ==> f(LocalName(fields[REF].s)) == LocalName(fields[REF].s))
      && forall k :: k in fields ==> Still(fields[k], f)
    case Arr(items) => forall i :: 0 <= i < |items| ==> Still(items[i], f)
    case _ => true
  }

  lemma {:induction false} LocalFreeIsStill(j: Json, f: string -> string)
    requires LocalFree(j)
    ensures Still(j, f)
  {
    match j {
      case Obj(fields) => forall k | k in fields ensures Still(fields[k], f) { LocalFreeIsStill(fields[k], f); }
      case Arr(items) => forall i | 0 <= i < |items| ensures Still(items[i], f) { LocalFreeIsStill(items[i], f); }
      case _ =>
    }
  }

  lemma RenamedName(name: string, f: string -> string)
    ensures IsLocal(LOCAL + f(name)) && LocalName(LOCAL + f(name)) == f(name)
  {}

  // A reference points at the renamed definition, with the keys beside it renamed.
  lemma RenamedReference(fields: map<string, Json>, f: string -> string)
    requires RefersLocally(fields)
    ensures RefersLocally(Renamed(Obj(fields), f).fields)
    ensures LocalName(Renamed(Obj(fields), f).fields[REF].s) == f(LocalName(fields[REF].s))
    ensures Beside(Renamed(Obj(fields), f).fields).Keys == Beside(fields).Keys
    ensures forall k :: k in Beside(fields) ==> Beside(Renamed(Obj(fields), f).fields)[k] == Renamed(fields[k], f)
  {
    RenamedName(LocalName(fields[REF].s), f);
  }

  lemma RenamedField(fields: map<string, Json>, f: string -> string, k: string)
    requires k in fields
    ensures k in Renamed(Obj(fields), f).fields
    ensures Renamed(Obj(fields), f).fields[k]
            == if k == REF && RefersLocally(fields) then Str(LOCAL + f(LocalName(fields[REF].s)))
                 else Renamed(fields[k], f)
  {}

  lemma RenamedKeys(fields: map<string, Json>, f: string -> string)
    ensures Renamed(Obj(fields), f).Obj? && Renamed(Obj(fields), f).fields.Keys == fields.Keys
  {}

  lemma RenamedMerge(definition: map<string, Json>, fields: map<string, Json>, f: string -> string)
    requires RefersLocally(fields)
    ensures Renamed(Obj(definition), f).fields + Beside(Renamed(Obj(fields), f).fields)
            == Renamed(Obj(definition + Beside(fields)), f).fields
  {
    hide Renamed;
    var merged := definition + Beside(fields);
    RenamedReference(fields, f);
    RenamedKeys(fields, f);
    RenamedKeys(definition, f);
    RenamedKeys(merged, f);
    var joined := Renamed(Obj(definition), f).fields + Beside(Renamed(Obj(fields), f).fields);
    assert joined.Keys == merged.Keys;
    forall k | k in merged ensures joined[k] == Renamed(Obj(merged), f).fields[k] {
      RenamedField(merged, f, k);
      if k !in Beside(fields) {
        RenamedField(definition, f, k);
      }
    }
  }

  // At every reference met inside its own definition, the keys beside it hold no reference it renames.
  predicate Unmoved(schema: Json, definitions: map<string, Json>, expanding: seq<string>, f: string -> string)
    decreases definitions.Keys - Expanded(expanding), schema
  {
    match schema
    case Obj(fields) =>
      if RefersLocally(fields) then
        var name := LocalName(fields[REF].s);
        if name in expanding then Still(Obj(Beside(fields)), f)
        else if name in definitions && definitions[name].Obj? then
          assert name in definitions.Keys - Expanded(expanding)
              && name !in definitions.Keys - Expanded(expanding + [name]);
          Unmoved(Obj(definitions[name].fields + Beside(fields)), definitions, expanding + [name], f)
        else true
      else forall k :: k in fields ==> Unmoved(fields[k], definitions, expanding, f)
    case Arr(items) => forall i :: 0 <= i < |items| ==> Unmoved(items[i], definitions, expanding, f)
    case _ => true
  }

  // Whatever the renaming.
  ghost predicate Steady(schema: Json, definitions: map<string, Json>, expanding: seq<string>) {
    forall f :: OneToOne(f) ==> Unmoved(schema, definitions, expanding, f)
  }

  lemma UnmovedFields(fields: map<string, Json>, definitions: map<string, Json>, expanding: seq<string>,
                      f: string -> string)
    requires !RefersLocally(fields)
    ensures Unmoved(Obj(fields), definitions, expanding, f)
            <==> forall k :: k in fields ==> Unmoved(fields[k], definitions, expanding, f)
  {}

  // A reference to a definition not yet being expanded stands for the definition with its keys laid over.
  lemma ExpandedReference(fields: map<string, Json>, definitions: map<string, Json>, expanding: seq<string>,
                          f: string -> string)
    requires RefersLocally(fields) && LocalName(fields[REF].s) !in expanding
    requires LocalName(fields[REF].s) in definitions && definitions[LocalName(fields[REF].s)].Obj?
    ensures var name := LocalName(fields[REF].s);
            var merged := Obj(definitions[name].fields + Beside(fields));
            && Inlined(Obj(fields), definitions, expanding) == Inlined(merged, definitions, expanding + [name])
            && (Unmoved(Obj(fields), definitions, expanding, f)
                <==> Unmoved(merged, definitions, expanding + [name], f))
  {}

  lemma RefusedReference(fields: map<string, Json>, definitions: map<string, Json>, expanding: seq<string>)
    requires RefersLocally(fields)
    requires LocalName(fields[REF].s) !in definitions
             || (LocalName(fields[REF].s) !in expanding && !definitions[LocalName(fields[REF].s)].Obj?)
    ensures Inlined(Obj(fields), definitions, expanding).Refused?
  {}

  // One inside its own definition keeps its keys and takes the declared name.
  lemma RecursiveReference(fields: map<string, Json>, definitions: map<string, Json>, expanding: seq<string>,
                           f: string -> string)
    requires RefersLocally(fields) && LocalName(fields[REF].s) in expanding && LocalName(fields[REF].s) in definitions
    ensures var definition := definitions[LocalName(fields[REF].s)];
            && Inlined(Obj(fields), definitions, expanding)
               == (if DeclaresName(definition) then Done(Obj(Beside(fields)[REF := definition.fields[COMMENT]]))
                    else Refused)
            && (Unmoved(Obj(fields), definitions, expanding, f) <==> Still(Obj(Beside(fields)), f))
  {}

  // A renaming shows exactly at the references it renames.
  lemma {:induction false} RenamingShowsExactly(j: Json, f: string -> string)
    ensures Renamed(j, f) == j <==> Still(j, f)
  {
    match j {
      case Obj(fields) =>
        forall k | k in fields ensures Renamed(fields[k], f) == fields[k] <==> Still(fields[k], f) {
          RenamingShowsExactly(fields[k], f);
        }
        FieldsShowExactly(fields, f);
      case Arr(items) =>
        forall i | 0 <= i < |items| ensures Renamed(items[i], f) == items[i] <==> Still(items[i], f) {
          RenamingShowsExactly(items[i], f);
        }
        if Renamed(j, f) == j {
          assert forall i :: 0 <= i < |items| ==> Renamed(j, f).items[i] == Renamed(items[i], f);
        }
      case _ =>
    }
  }

  lemma FieldsShowExactly(fields: map<string, Json>, f: string -> string)
    requires forall k :: k in fields ==> (Renamed(fields[k], f) == fields[k] <==> Still(fields[k], f))
    ensures Renamed(Obj(fields), f) == Obj(fields) <==> Still(Obj(fields), f)
  {
    hide Renamed;
    RenamedKeys(fields, f);
    forall k | k in fields
      ensures Renamed(Obj(fields), f).fields[k] == fields[k]
              <==> if k == REF && RefersLocally(fields) then f(LocalName(fields[REF].s)) == LocalName(fields[REF].s)
                   else Still(fields[k], f)
    {
      RenamedField(fields, f, k);
      if k == REF && RefersLocally(fields) {
        ReferenceShows(fields[REF].s, f);
      }
    }
    if Still(Obj(fields), f) {
      assert Renamed(Obj(fields), f).fields == fields;
    }
    if Renamed(Obj(fields), f) == Obj(fields) {
      assert forall k :: k in fields ==> Renamed(Obj(fields), f).fields[k] == fields[k];
      assert RefersLocally(fields) ==> Still(fields[REF], f);
    }
  }

  lemma ReferenceShows(reference: string, f: string -> string)
    requires IsLocal(reference)
    ensures LOCAL + f(LocalName(reference)) == reference <==> f(LocalName(reference)) == LocalName(reference)
  {
    assert reference == LOCAL + LocalName(reference);
    RenamedName(LocalName(reference), f);
  }

  // What a renaming makes of the result: its success stays, and its value exactly when no key beside a
  // recursive reference holds a reference it renames.
  ghost predicate RenamedAlike(schema: Json, definitions: map<string, Json>, expanding: seq<string>,
                               f: string -> string,
                               schema': Json, definitions': map<string, Json>, expanding': seq<string>) {
    var r, r' := Inlined(schema, definitions, expanding), Inlined(schema', definitions', expanding');
    && (r.Done? <==> r'.Done?)
    && (r.Done? ==> (r' == r <==> Unmoved(schema, definitions, expanding, f)))
  }

  lemma {:induction false} NamesMatterExactly(schema: Json, definitions: map<string, Json>, expanding: seq<string>,
                                              f: string -> string)
    requires OneToOne(f)
    ensures RenamedAlike(schema, definitions, expanding, f, Renamed(schema, f), RenamedDefinitions(definitions, f),
        RenamedAll(expanding, f))
    decreases definitions.Keys - Expanded(expanding), schema, 1
  {
    match schema {
      case Obj(fields) =>
        if RefersLocally(fields) {
          ReferenceMattersExactly(fields, definitions, expanding, f);
        } else {
          FieldsMatterExactly(fields, definitions, expanding, f);
        }
      case Arr(items) =>
        var defs', exp' := RenamedDefinitions(definitions, f), RenamedAll(expanding, f);
        var items' := Renamed(schema, f).items;
        forall i | 0 <= i < |items|
          ensures RenamedAlike(items[i], definitions, expanding, f, items'[i], defs', exp')
        {
          NamesMatterExactly(items[i], definitions, expanding, f);
        }
        SameItems(items, items', definitions, defs', expanding, exp', f);
      case _ =>
    }
  }

  lemma {:induction false} ReferenceMattersExactly(fields: map<string, Json>, definitions: map<string, Json>,
                                                   expanding: seq<string>, f: string -> string)
    requires OneToOne(f) && RefersLocally(fields)
    ensures RenamedAlike(Obj(fields), definitions, expanding, f,
                         Renamed(Obj(fields), f), RenamedDefinitions(definitions, f), RenamedAll(expanding, f))
    decreases definitions.Keys - Expanded(expanding), Obj(fields), 0, 1
  {
    hide Inlined, Unmoved, Still, Renamed, RenamedAlike;
    var name := LocalName(fields[REF].s);
    RenamedExpanding(expanding, f, name);
    if name !in definitions || (name !in expanding && !definitions[name].Obj?) {
      RefusedEitherWay(fields, definitions, expanding, f);
    } else if name in expanding {
      RecursiveMattersExactly(fields, definitions, expanding, f);
    } else {
      ExpandedMattersExactly(fields, definitions, expanding, f);
    }
  }

  lemma RenamedExpanding(expanding: seq<string>, f: string -> string, name: string)
    requires OneToOne(f)
    ensures f(name) in RenamedAll(expanding, f) <==> name in expanding
  {
    if name in expanding {
      var i :| 0 <= i < |expanding| && expanding[i] == name;
      assert RenamedAll(expanding, f)[i] == f(name);
    }
  }

  lemma RefusedEitherWay(fields: map<string, Json>, definitions: map<string, Json>, expanding: seq<string>,
                         f: string -> string)
    requires OneToOne(f) && RefersLocally(fields)
    requires var name := LocalName(fields[REF].s);
             && (name !in definitions || (name !in expanding && !definitions[name].Obj?))
             && (f(name) in RenamedAll(expanding, f) <==> name in expanding)
    ensures RenamedAlike(Obj(fields), definitions, expanding, f,
                         Renamed(Obj(fields), f), RenamedDefinitions(definitions, f), RenamedAll(expanding, f))
  {
    hide Inlined, Unmoved, Renamed;
    var name := LocalName(fields[REF].s);
    RenamedReference(fields, f);
    RenamedKeys(fields, f);
    assert Renamed(Obj(fields), f) == Obj(Renamed(Obj(fields), f).fields);
    if name in definitions {
      RenamedDeclares(definitions[name], f);
    }
    RefusedReference(fields, definitions, expanding);
    RefusedReference(Renamed(Obj(fields), f).fields, RenamedDefinitions(definitions, f), RenamedAll(expanding, f));
  }

  lemma RecursiveMattersExactly(fields: map<string, Json>, definitions: map<string, Json>, expanding: seq<string>,
                                f: string -> string)
    requires OneToOne(f) && RefersLocally(fields) && LocalName(fields[REF].s) in expanding
        && LocalName(fields[REF].s) in definitions
    requires f(LocalName(fields[REF].s)) in RenamedAll(expanding, f)
    ensures RenamedAlike(Obj(fields), definitions, expanding, f,
                         Renamed(Obj(fields), f), RenamedDefinitions(definitions, f), RenamedAll(expanding, f))
  {
    hide Inlined, Unmoved, Still, Renamed;
    var name := LocalName(fields[REF].s);
    RenamedReference(fields, f);
    RenamedDeclares(definitions[name], f);
    RecursiveReference(fields, definitions, expanding, f);
    RenamedKeys(fields, f);
    var fields' := Renamed(Obj(fields), f).fields;
    assert Renamed(Obj(fields), f) == Obj(fields');
    RecursiveReference(fields', RenamedDefinitions(definitions, f), RenamedAll(expanding, f), f);
    BesideMattersExactly(fields, f);
    if DeclaresName(definitions[name]) && Beside(fields') != Beside(fields) {
      OtherKeysDiffer(Beside(fields), Beside(fields'), definitions[name].fields[COMMENT]);
    }
  }

  lemma OtherKeysDiffer(a: map<string, Json>, b: map<string, Json>, v: Json)
    requires REF !in a && REF !in b && a != b
    ensures a[REF := v] != b[REF := v]
  {
    assert a == a[REF := v] - {REF} && b == b[REF := v] - {REF};
  }

  lemma {:induction false} ExpandedMattersExactly(fields: map<string, Json>, definitions: map<string, Json>,
                                                  expanding: seq<string>, f: string -> string)
    requires OneToOne(f) && RefersLocally(fields) && LocalName(fields[REF].s) !in expanding
    requires LocalName(fields[REF].s) in definitions && definitions[LocalName(fields[REF].s)].Obj?
    requires f(LocalName(fields[REF].s)) !in RenamedAll(expanding, f)
    ensures RenamedAlike(Obj(fields), definitions, expanding, f,
                         Renamed(Obj(fields), f), RenamedDefinitions(definitions, f), RenamedAll(expanding, f))
    decreases definitions.Keys - Expanded(expanding), Obj(fields), 0, 0
  {
    hide Inlined, Unmoved, Still, Renamed;
    var name := LocalName(fields[REF].s);
    var definition := definitions[name].fields;
    var defs', exp' := RenamedDefinitions(definitions, f), RenamedAll(expanding, f);
    RenamedReference(fields, f);
    RenamedKeys(fields, f);
    RenamedKeys(definition, f);
    RenamedKeys(definition + Beside(fields), f);
    var fields' := Renamed(Obj(fields), f).fields;
    assert Renamed(Obj(fields), f) == Obj(fields');
    ExpandedReference(fields, definitions, expanding, f);
    ExpandedReference(fields', defs', exp', f);
    RenamedMerge(definition, fields, f);
    assert RenamedAll(expanding + [name], f) == exp' + [f(name)];
    assert name in definitions.Keys - Expanded(expanding) && name !in definitions.Keys - Expanded(expanding + [name]);
    NamesMatterExactly(Obj(definition + Beside(fields)), definitions, expanding + [name], f);
  }

  lemma BesideMattersExactly(fields: map<string, Json>, f: string -> string)
    requires RefersLocally(fields)
    ensures Beside(Renamed(Obj(fields), f).fields) == Beside(fields) <==> Still(Obj(Beside(fields)), f)
  {
    RenamedReference(fields, f);
    var beside := Beside(Renamed(Obj(fields), f).fields);
    forall k | k in Beside(fields) ensures beside[k] == fields[k] <==> Still(Beside(fields)[k], f) {
      RenamingShowsExactly(fields[k], f);
    }
    if beside == Beside(fields) {
      assert forall k :: k in Beside(fields) ==> beside[k] == fields[k];
    }
  }

  lemma RenamedDeclares(definition: Json, f: string -> string)
    ensures Renamed(definition, f).Obj? <==> definition.Obj?
    ensures DeclaresName(Renamed(definition, f)) <==> DeclaresName(definition)
    ensures DeclaresName(definition) ==> Renamed(definition, f).fields[COMMENT] == definition.fields[COMMENT]
  {
    if definition.Obj? && COMMENT in definition.fields {
      assert Renamed(definition, f).fields[COMMENT] == Renamed(definition.fields[COMMENT], f);
    }
  }

  lemma SameFields(fields: map<string, Json>, fields': map<string, Json>, definitions: map<string, Json>,
                   definitions': map<string, Json>, expanding: seq<string>, expanding': seq<string>,
                       f: string -> string)
    requires fields.Keys == fields'.Keys && !RefersLocally(fields) && !RefersLocally(fields')
    requires forall k :: k in fields ==> RenamedAlike(fields[k], definitions, expanding, f, fields'[k], definitions',
        expanding')
    ensures RenamedAlike(Obj(fields), definitions, expanding, f, Obj(fields'), definitions', expanding')
  {
    hide Inlined, Unmoved;
    UnmovedFields(fields, definitions, expanding, f);
    InlinedFields(fields, definitions, expanding);
    InlinedFields(fields', definitions', expanding');
    var r, r' := Inlined(Obj(fields), definitions, expanding), Inlined(Obj(fields'), definitions', expanding');
    if r.Done? {
      if Unmoved(Obj(fields), definitions, expanding, f) {
        assert r.value.fields == r'.value.fields;
      } else {
        var k :| k in fields && !Unmoved(fields[k], definitions, expanding, f);
        assert r.value.fields[k] != r'.value.fields[k];
      }
    }
  }

  lemma SameItems(items: seq<Json>, items': seq<Json>, definitions: map<string, Json>,
                  definitions': map<string, Json>, expanding: seq<string>, expanding': seq<string>, f: string -> string)
    requires |items| == |items'|
    requires forall i :: 0 <= i < |items|
                         ==> RenamedAlike(items[i], definitions, expanding, f, items'[i], definitions', expanding')
    ensures RenamedAlike(Arr(items), definitions, expanding, f, Arr(items'), definitions', expanding')
  {
    InlinedItems(items, definitions, expanding);
    InlinedItems(items', definitions', expanding');
    var r, r' := Inlined(Arr(items), definitions, expanding), Inlined(Arr(items'), definitions', expanding');
    if r.Done? {
      if Unmoved(Arr(items), definitions, expanding, f) {
        assert r.value.items == r'.value.items;
      } else {
        var i :| 0 <= i < |items| && !Unmoved(items[i], definitions, expanding, f);
        assert r.value.items[i] != r'.value.items[i];
      }
    }
  }

  lemma RenamedFields(fields: map<string, Json>, f: string -> string)
    requires !RefersLocally(fields)
    ensures Renamed(Obj(fields), f).fields.Keys == fields.Keys
    ensures forall k :: k in fields ==> Renamed(Obj(fields), f).fields[k] == Renamed(fields[k], f)
    ensures !RefersLocally(Renamed(Obj(fields), f).fields)
  {}

  lemma {:induction false} FieldsMatterExactly(fields: map<string, Json>, definitions: map<string, Json>,
                                               expanding: seq<string>, f: string -> string)
    requires OneToOne(f) && !RefersLocally(fields)
    ensures RenamedAlike(Obj(fields), definitions, expanding, f,
                         Renamed(Obj(fields), f), RenamedDefinitions(definitions, f), RenamedAll(expanding, f))
    decreases definitions.Keys - Expanded(expanding), Obj(fields), 0
  {
    var defs', exp' := RenamedDefinitions(definitions, f), RenamedAll(expanding, f);
    var fields' := Renamed(Obj(fields), f).fields;
    RenamedFields(fields, f);
    forall k | k in fields
      ensures RenamedAlike(fields[k], definitions, expanding, f, fields'[k], defs', exp')
    {
      NamesMatterExactly(fields[k], definitions, expanding, f);
    }
    SameFields(fields, fields', definitions, defs', expanding, exp', f);
  }

  // Whatever settles, no renaming moves, so a result without local names does not depend on them.
  lemma {:induction false} SettledIsUnmoved(schema: Json, definitions: map<string, Json>, expanding: seq<string>,
                                            f: string -> string)
    requires Inlined(schema, definitions, expanding).Done? && Settles(schema, definitions, expanding)
    ensures Unmoved(schema, definitions, expanding, f)
    decreases definitions.Keys - Expanded(expanding), schema
  {
    match schema {
      case Obj(fields) =>
        if RefersLocally(fields) {
          var name := LocalName(fields[REF].s);
          if name in expanding {
            LocalFreeIsStill(Obj(Beside(fields)), f);
          } else {
            assert name in definitions.Keys - Expanded(expanding)
                && name !in definitions.Keys - Expanded(expanding + [name]);
            SettledIsUnmoved(Obj(definitions[name].fields + Beside(fields)), definitions, expanding + [name], f);
          }
        } else {
          InlinedFields(fields, definitions, expanding);
          forall k | k in fields ensures Unmoved(fields[k], definitions, expanding, f) {
            SettledIsUnmoved(fields[k], definitions, expanding, f);
          }
        }
      case Arr(items) =>
        InlinedItems(items, definitions, expanding);
        forall i | 0 <= i < |items| ensures Unmoved(items[i], definitions, expanding, f) {
          SettledIsUnmoved(items[i], definitions, expanding, f);
        }
      case _ =>
    }
  }

  // ---- A record's schema document -------------------------------------------------------------

  const DEFS := "$defs"

  predicate SharesDefinitions(schema: Json) {
    schema.Obj? && DEFS in schema.fields && schema.fields[DEFS].Obj?
  }

  function RecordSchema(schema: Json): Outcome {
    if SharesDefinitions(schema) then Inlined(Obj(schema.fields - {DEFS}), schema.fields[DEFS].fields, [])
    else Done(schema)
  }

  function Root(schema: Json): Json
    requires SharesDefinitions(schema)
  {
    Obj(schema.fields - {DEFS})
  }

  function Definitions(schema: Json): map<string, Json>
    requires SharesDefinitions(schema)
  {
    schema.fields[DEFS].fields
  }

  ghost predicate PlainDocument(schema: Json) {
    SharesDefinitions(schema) && PlainReferences(Root(schema)) && PlainDefinitions(Definitions(schema))
  }

  ghost function RenamedDocument(schema: Json, f: string -> string): Json
    requires SharesDefinitions(schema) && OneToOne(f)
  {
    Obj(Renamed(Obj(schema.fields - {DEFS}), f).fields[DEFS := Obj(RenamedDefinitions(schema.fields[DEFS].fields, f))])
  }

  lemma RenamedDocumentParts(schema: Json, f: string -> string)
    requires SharesDefinitions(schema) && OneToOne(f)
    ensures SharesDefinitions(RenamedDocument(schema, f))
    ensures RenamedDocument(schema, f).fields - {DEFS} == Renamed(Obj(schema.fields - {DEFS}), f).fields
    ensures RenamedDocument(schema, f).fields[DEFS].fields == RenamedDefinitions(schema.fields[DEFS].fields, f)
  {}

  // A renumbering of the definitions keeps a stored form exactly when it leaves unmoved whatever stands
  // beside a recursive reference; a document whose form every renumbering keeps is a steady one.
  lemma StoredFormIgnoresDefinitionNames(schema: Json, f: string -> string)
    requires SharesDefinitions(schema) && OneToOne(f)
    ensures RecordSchema(RenamedDocument(schema, f)).Done? <==> RecordSchema(schema).Done?
    ensures RecordSchema(schema).Done? ==>
              (RecordSchema(RenamedDocument(schema, f)) == RecordSchema(schema)
               <==> Unmoved(Root(schema), Definitions(schema), [], f))
  {
    RenamedDocumentParts(schema, f);
    assert RenamedAll([], f) == [];
    NamesMatterExactly(Root(schema), Definitions(schema), [], f);
  }

  // It names none of them exactly when every recursive reference settles, as plain documents' do; it is
  // then steady.
  lemma StoredFormHasNoLocalName(schema: Json)
    requires SharesDefinitions(schema) && RecordSchema(schema).Done?
    ensures LocalFree(RecordSchema(schema).value) <==> Settles(Root(schema), Definitions(schema), [])
    ensures LocalFree(RecordSchema(schema).value) ==> Steady(Root(schema), Definitions(schema), [])
    ensures PlainDocument(schema) ==> LocalFree(RecordSchema(schema).value)
  {
    LocalFreeExactlyWhenSettled(Root(schema), Definitions(schema), []);
    if PlainDocument(schema) {
      PlainReferencesSettle(Root(schema), Definitions(schema), []);
    }
    if Settles(Root(schema), Definitions(schema), []) {
      forall f: string -> string | OneToOne(f) ensures Unmoved(Root(schema), Definitions(schema), [], f) {
        SettledIsUnmoved(Root(schema), Definitions(schema), [], f);
      }
    }
  }

  // ---- The condition is needed ------------------------------------------------------------------

  const D0 := Str(LOCAL + "d0")
  const NEXT := Obj(map[REF := D0, "default" := Obj(map[REF := D0])])
  const NODE := Obj(map[COMMENT := Str("Node"), "next" := NEXT])
  const DOCUMENT := Obj(map[REF := D0, DEFS := Obj(map["d0" := NODE])])

  // A recursive reference keeps the keys beside it as they are: the stored form of this document names
  // `d0`, and a renumbering changes it exactly when it renames `d0`.
  lemma LocalNameCanSurvive(f: string -> string)
    requires OneToOne(f)
    ensures SharesDefinitions(DOCUMENT) && RecordSchema(DOCUMENT).Done? && !LocalFree(RecordSchema(DOCUMENT).value)
    ensures RecordSchema(RenamedDocument(DOCUMENT, f)) == RecordSchema(DOCUMENT) <==> f("d0") == "d0"
  {
    hide Inlined, Unmoved;
    var defs := map["d0" := NODE];
    assert LocalName(D0.s) == "d0";
    assert Root(DOCUMENT) == Obj(map[REF := D0]) && Definitions(DOCUMENT) == defs;
    assert Beside(map[REF := D0]) == map[];
    assert NODE.fields + map[] == NODE.fields && [] + ["d0"] == ["d0"];
    ExpandedReference(map[REF := D0], defs, [], f);
    SurvivesInside(defs, f);
    StoredFormIgnoresDefinitionNames(DOCUMENT, f);
  }

  lemma SurvivesInside(defs: map<string, Json>, f: string -> string)
    requires defs == map["d0" := NODE]
    ensures Inlined(NODE, defs, ["d0"]).Done? && !LocalFree(Inlined(NODE, defs, ["d0"]).value)
    ensures Unmoved(NODE, defs, ["d0"], f) <==> f("d0") == "d0"
  {
    hide Inlined, Unmoved;
    assert LocalName(D0.s) == "d0";
    RecursiveReference(NEXT.fields, defs, ["d0"], f);
    var beside := Obj(map[REF := D0]);
    assert Beside(NEXT.fields) == map["default" := beside] && !LocalFree(beside);
    assert Still(beside, f) <==> f("d0") == "d0" by { assert Still(D0, f); }
    var r := Inlined(NEXT, defs, ["d0"]);
    assert r.value.fields["default"] == beside;
    InlinedFields(NODE.fields, defs, ["d0"]);
    UnmovedFields(NODE.fields, defs, ["d0"], f);
    NamesInlined(defs, f);
    assert Inlined(NODE, defs, ["d0"]).value.fields["next"] == r.value;
  }

  lemma NamesInlined(defs: map<string, Json>, f: string -> string)
    ensures Inlined(Str("Node"), defs, ["d0"]) == Done(Str("Node")) && Unmoved(Str("Node"), defs, ["d0"], f)
  {}

  // There is such a renumbering.
  lemma SomeRenamingMovesIt()
    ensures exists f: string -> string :: OneToOne(f) && f("d0") != "d0"
  {
    var f: string -> string := n => n + "x";
    forall a, b | f(a) == f(b) ensures a == b {
      assert f(a)[..|f(a)| - 1] == a && f(b)[..|f(b)| - 1] == b;
    }
    assert OneToOne(f) && |f("d0")| == 3;
  }
}
