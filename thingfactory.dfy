/** The thing-template registry: an intrusive singly-linked list of templates
    (newest first), a name-to-template map and a 16-bit template-ID counter,
    kept side by side. */
module Things {

  /** The `unsigned short` of template IDs and of the ID counter. */
  newtype uint16 = x: int | 0 <= x < 0x1_0000

  const DefaultTemplateName: string := "DefaultThingTemplate"
  const UnnamedTemplateName: string := "Un-namedTemplate"
  const TestingPrefix: string := "***TESTING"

  /** The code New_Drawable throws for an absent template. */
  datatype ErrorCode = Code03

  datatype Result<T> = Ok(value: T) | Err(error: ErrorCode)

  /** The name lookup's special path: strncmp against the whole "***TESTING" prefix. */
  predicate IsTestingName(name: string)
  {
    TestingPrefix <= name
  }

  /** The counter after one increment of an `unsigned short`. */
  function Increment(id: uint16): uint16
  {
    ((id as int + 1) % 0x1_0000) as uint16
  }

  /** A thing template. `data` stands for every field that the template's own code
      defines and this model does not look at; the copy-assignment `*t = *other`
      is modelled as copying it. */
  class ThingTemplate {
    var name: string
    var templateID: uint16
    var nextTemplate: ThingTemplate?
    var nextOverride: ThingTemplate?
    var copiedFromDefault: bool
    var isAllocated: bool
    var data: seq<int>

    constructor ()
      ensures nextTemplate == null && nextOverride == null
      ensures !copiedFromDefault && !isAllocated
    {
      name := "";
      templateID := 0;
      nextTemplate := null;
      nextOverride := null;
      copiedFromDefault := false;
      isAllocated := false;
      data := [];
    }
  }

  // ---------------------------------------------------------------------------
  // The registry's invariants, stated over the list as a sequence and the map

  /** Each template's nextTemplate is its successor in ts, the last one's is null,
      and no template occurs twice. */
  ghost predicate Linked(ts: seq<ThingTemplate>)
    reads ts
  {
    (forall i :: 0 <= i < |ts| - 1 ==> ts[i].nextTemplate == ts[i + 1]) &&
    (ts != [] ==> ts[|ts| - 1].nextTemplate == null) &&
    (forall i, j :: 0 <= i < j < |ts| ==> ts[i] != ts[j])
  }

  /** Every template the map holds is in the list. */
  ghost predicate MapInList(m: map<string, ThingTemplate>, ts: seq<ThingTemplate>)
  {
    forall k :: k in m ==> m[k] in ts
  }

  /** Every map key is the name of the template it maps to. */
  ghost predicate KeysNamed(m: map<string, ThingTemplate>)
    reads m.Values
  {
    forall k :: k in m ==> m[k].name == k
  }

  /** The bound the counter stands for: the next ID to issue, where 0 after 0xFFFF was
      issued means that every 16-bit ID has been used. */
  function IdCeiling(counter: uint16): (c: int)
    ensures 1 <= c <= 0x1_0000
    ensures counter != 0 ==> c == counter as int
  {
    if counter == 0 then 0x1_0000 else counter as int
  }

  /** The IDs along the list were issued by the counter: all in [1, IdCeiling(counter))
      and strictly decreasing from the head, hence pairwise distinct. */
  ghost predicate IdsIssued(ts: seq<ThingTemplate>, counter: uint16)
    reads ts
  {
    (forall i :: 0 <= i < |ts| ==> 1 <= ts[i].templateID as int < IdCeiling(counter)) &&
    (forall i, j :: 0 <= i < j < |ts| ==> ts[j].templateID < ts[i].templateID)
  }

  /** Prepending a template that links to the old head keeps the list well linked. */
  lemma LinkedPrepend(t: ThingTemplate, ts: seq<ThingTemplate>)
    requires Linked(ts) && t !in ts
    requires ts == [] ==> t.nextTemplate == null
    requires ts != [] ==> t.nextTemplate == ts[0]
    ensures Linked([t] + ts)
  {
    var s := [t] + ts;
    forall i | 0 <= i < |s| - 1
      ensures s[i].nextTemplate == s[i + 1]
    {
      if i > 0 {
        assert s[i] == ts[i - 1] && s[i + 1] == ts[i];
      }
    }
  }

  lemma LinkedSuffix(ts: seq<ThingTemplate>, k: nat)
    requires Linked(ts) && k <= |ts|
    ensures Linked(ts[k..])
  {
  }

  /** A template issued from the counter keeps the IDs in order, up to and including
      ID 0xFFFF; once the counter has wrapped to 0, the next ID issued is 0. */
  lemma IdsIssuedPrepend(t: ThingTemplate, ts: seq<ThingTemplate>, counter: uint16)
    requires IdsIssued(ts, counter) && t.templateID == counter && counter != 0
    ensures IdsIssued([t] + ts, Increment(counter))
  {
    var s := [t] + ts;
    forall i, j | 0 <= i < j < |s|
      ensures s[j].templateID < s[i].templateID
    {
      assert s[j] == ts[j - 1];
      if i > 0 {
        assert s[i] == ts[i - 1];
      }
    }
  }

  lemma IdsIssuedSuffix(ts: seq<ThingTemplate>, counter: uint16, k: nat)
    requires IdsIssued(ts, counter) && k <= |ts|
    ensures IdsIssued(ts[k..], counter)
  {
  }

  /** While the IDs were issued in order, no two templates share an ID, so the lookup by
      ID finds the one template that carries it. */
  lemma IdsIssuedDistinct(ts: seq<ThingTemplate>, counter: uint16)
    requires IdsIssued(ts, counter)
    ensures forall i, j :: 0 <= i < |ts| && 0 <= j < |ts| && i != j ==> ts[i].templateID != ts[j].templateID
  {
    forall i, j | 0 <= i < |ts| && 0 <= j < |ts| && i != j
      ensures ts[i].templateID != ts[j].templateID
    {
      if i < j {
        assert ts[j].templateID < ts[i].templateID;
      } else {
        assert ts[i].templateID < ts[j].templateID;
      }
    }
  }

  // ---------------------------------------------------------------------------
  // What Reset removes

  /** Number of templates at the front of ts for which Delete_Overrides returns null. */
  function LeadingDeleted(ts: seq<ThingTemplate>, deleteOverrides: ThingTemplate -> bool): (n: nat)
    ensures n <= |ts|
  {
    if ts == [] || !deleteOverrides(ts[0]) then 0 else 1 + LeadingDeleted(ts[1..], deleteOverrides)
  }

  /** LeadingDeleted is the length of the longest run of deleted templates at the front. */
  lemma {:induction false} LeadingDeletedIsRun(ts: seq<ThingTemplate>, deleteOverrides: ThingTemplate -> bool)
    ensures forall j :: 0 <= j < LeadingDeleted(ts, deleteOverrides) ==> deleteOverrides(ts[j])
    ensures LeadingDeleted(ts, deleteOverrides) < |ts| ==> !deleteOverrides(ts[LeadingDeleted(ts, deleteOverrides)])
  {
    if ts != [] && deleteOverrides(ts[0]) {
      LeadingDeletedIsRun(ts[1..], deleteOverrides);
    }
  }

  /** How LeadingDeleted grows when one more template is visited. */
  lemma {:induction false} LeadingDeletedSnoc(ts: seq<ThingTemplate>, t: ThingTemplate, deleteOverrides: ThingTemplate -> bool)
    ensures LeadingDeleted(ts + [t], deleteOverrides) ==
      if LeadingDeleted(ts, deleteOverrides) == |ts| && deleteOverrides(t) then |ts| + 1
      else LeadingDeleted(ts, deleteOverrides)
  {
    if ts == [] {
      assert ts + [t] == [t];
    } else {
      assert (ts + [t])[1..] == ts[1..] + [t];
      LeadingDeletedSnoc(ts[1..], t, deleteOverrides);
    }
  }

  /** The names of the templates in ts for which Delete_Overrides returns null. */
  ghost function DeletedNames(ts: seq<ThingTemplate>, deleteOverrides: ThingTemplate -> bool): set<string>
    reads ts
  {
    set i | 0 <= i < |ts| && deleteOverrides(ts[i]) :: ts[i].name
  }

  /** How DeletedNames grows when one more template is visited. */
  lemma DeletedNamesSnoc(ts: seq<ThingTemplate>, t: ThingTemplate, deleteOverrides: ThingTemplate -> bool)
    ensures DeletedNames(ts + [t], deleteOverrides) ==
      DeletedNames(ts, deleteOverrides) + (if deleteOverrides(t) then {t.name} else {})
  {
    var s := ts + [t];
    forall n | n in DeletedNames(s, deleteOverrides)
      ensures n in DeletedNames(ts, deleteOverrides) + (if deleteOverrides(t) then {t.name} else {})
    {
      var i :| 0 <= i < |s| && deleteOverrides(s[i]) && s[i].name == n;
      if i < |ts| {
        assert s[i] == ts[i];
      }
    }
    forall n | n in DeletedNames(ts, deleteOverrides)
      ensures n in DeletedNames(s, deleteOverrides)
    {
      var i :| 0 <= i < |ts| && deleteOverrides(ts[i]) && ts[i].name == n;
      assert s[i] == ts[i];
    }
    if deleteOverrides(t) {
      assert s[|ts|] == t;
    }
  }

  /** The map after erasing, in list order, the name of every template of ts for which
      Delete_Overrides returns null. */
  ghost function EraseDeleted(m: map<string, ThingTemplate>, ts: seq<ThingTemplate>,
                              deleteOverrides: ThingTemplate -> bool): map<string, ThingTemplate>
    reads ts
    decreases |ts|
  {
    if ts == [] then m
    else
      var last := ts[|ts| - 1];
      var rest := EraseDeleted(m, ts[..|ts| - 1], deleteOverrides);
      if deleteOverrides(last) then rest - {last.name} else rest
  }

  /** Erasing one name at a time removes exactly the deleted templates' names. */
  lemma {:induction false} EraseDeletedRemovesNames(m: map<string, ThingTemplate>, ts: seq<ThingTemplate>,
                                                     deleteOverrides: ThingTemplate -> bool)
    ensures EraseDeleted(m, ts, deleteOverrides) == m - DeletedNames(ts, deleteOverrides)
    decreases |ts|
  {
    if ts != [] {
      var init := ts[..|ts| - 1];
      var last := ts[|ts| - 1];
      assert ts == init + [last];
      EraseDeletedRemovesNames(m, init, deleteOverrides);
      DeletedNamesSnoc(init, last, deleteOverrides);
    }
  }

  /** One step of Reset's walk: how the leading run and the erased map grow at ts[i]. */
  lemma ResetStep(ts: seq<ThingTemplate>, i: nat, lead: nat, m: map<string, ThingTemplate>,
                  deleteOverrides: ThingTemplate -> bool)
    requires Linked(ts) && lead <= i < |ts| && lead == LeadingDeleted(ts[..i], deleteOverrides)
    ensures lead < i ==> ts[lead] != ts[i]
    ensures LeadingDeleted(ts[..i + 1], deleteOverrides) ==
      if lead == i && deleteOverrides(ts[i]) then lead + 1 else lead
    ensures EraseDeleted(m, ts[..i + 1], deleteOverrides) ==
      if deleteOverrides(ts[i]) then EraseDeleted(m, ts[..i], deleteOverrides) - {ts[i].name}
      else EraseDeleted(m, ts[..i], deleteOverrides)
  {
    assert ts[..i + 1][..i] == ts[..i];
    LeadingDeletedSnoc(ts[..i], ts[i], deleteOverrides);
    assert ts[..i + 1] == ts[..i] + [ts[i]];
  }

  /** Reset keeps the registry consistent: where every key names the template it maps to
      and that template is in ts, erasing the names of the deleted templates leaves only
      templates past the leading run, still under their own names. */
  lemma ErasedNamesKeepRegistered(m: map<string, ThingTemplate>, ts: seq<ThingTemplate>,
                                  deleteOverrides: ThingTemplate -> bool)
    requires MapInList(m, ts) && KeysNamed(m)
    ensures MapInList(m - DeletedNames(ts, deleteOverrides), ts[LeadingDeleted(ts, deleteOverrides)..])
    ensures KeysNamed(m - DeletedNames(ts, deleteOverrides))
  {
    LeadingDeletedIsRun(ts, deleteOverrides);
    var lead := LeadingDeleted(ts, deleteOverrides);
    var gone := DeletedNames(ts, deleteOverrides);
    assert forall j :: 0 <= j < |ts| && deleteOverrides(ts[j]) ==> ts[j].name in gone;
    forall k | k in m - gone
      ensures m[k] in ts[lead..]
    {
      var j :| 0 <= j < |ts| && ts[j] == m[k];
      assert lead <= j;
      assert ts[j] == ts[lead..][j - lead];
    }
  }

  // ---------------------------------------------------------------------------

  class ThingFactory {
    var firstTemplate: ThingTemplate?
    var nextTemplateID: uint16
    var templateMap: map<string, ThingTemplate>
    /** The list reached from firstTemplate through nextTemplate, head first. */
    ghost var templates: seq<ThingTemplate>

    /** firstTemplate heads the list that the ghost sequence spells out. */
    ghost predicate Valid()
      reads this, templates
    {
      (templates == [] ==> firstTemplate == null) &&
      (templates != [] ==> firstTemplate == templates[0]) &&
      Linked(templates)
    }

    ghost predicate Registered()
      reads this
    {
      MapInList(templateMap, templates)
    }

    ghost predicate KeysAreNames()
      reads this, templateMap.Values
    {
      KeysNamed(templateMap)
    }

    ghost predicate IdsIssuedInOrder()
      reads this, templates
    {
      IdsIssued(templates, nextTemplateID)
    }

    constructor ()
      ensures Valid() && templates == [] && firstTemplate == null
      ensures nextTemplateID == 1 && templateMap == map[]
    {
      firstTemplate := null;
      nextTemplateID := 1;
      templateMap := map[];
      templates := [];
    }

    /** Prepends t to the list and maps its name to it, overwriting a duplicate name. */
    method AddTemplate(t: ThingTemplate)
      requires Valid() && t !in templates
      modifies this, t`nextTemplate
      ensures Valid()
      ensures templates == [t] + old(templates) && firstTemplate == t
      ensures t.nextTemplate == old(firstTemplate)
      ensures templateMap == old(templateMap)[t.name := t]
      ensures nextTemplateID == old(nextTemplateID)
      ensures old(Registered()) ==> Registered()
      ensures old(KeysAreNames()) ==> KeysAreNames()
    {
      t.nextTemplate := firstTemplate;
      firstTemplate := t;
      templateMap := templateMap[t.name := t];
      LinkedPrepend(t, templates);
      templates := [t] + templates;
    }

    /** Allocates a template (copied from "DefaultThingTemplate" when that is registered),
        gives it the counter's value as ID and the requested name, and registers it. */
    method NewTemplate(name: string) returns (t: ThingTemplate)
      requires Valid()
      modifies this
      ensures Valid() && fresh(t)
      ensures templates == [t] + old(templates) && firstTemplate == t
      ensures t.nextTemplate == old(firstTemplate)
      ensures t.name == name && t.templateID == old(nextTemplateID)
      ensures nextTemplateID == Increment(old(nextTemplateID))
      ensures templateMap == old(templateMap)[name := t]
      ensures t.copiedFromDefault <==> DefaultTemplateName in old(templateMap)
      ensures DefaultTemplateName in old(templateMap) ==> t.data == old(templateMap[DefaultTemplateName].data)
      ensures old(Registered()) ==> Registered()
      ensures old(KeysAreNames()) ==> KeysAreNames()
    {
      ghost var ts := templates;
      ghost var counter := nextTemplateID;
      t := new ThingTemplate();
      if DefaultTemplateName in templateMap {
        t.data := templateMap[DefaultTemplateName].data;  // the copy-assignment
        t.copiedFromDefault := true;
      }
      t.templateID := nextTemplateID;
      nextTemplateID := Increment(nextTemplateID);
      t.name := name;
      AddTemplate(t);
    }

    /** Copies the final override of thingTemplate into a new allocated template and
        chains it after that final override; the registry itself is untouched. */
    method NewOverride(thingTemplate: ThingTemplate, getFinalOverride: ThingTemplate -> ThingTemplate)
      returns (t: ThingTemplate)
      requires Valid()
      modifies getFinalOverride(thingTemplate)`nextOverride
      ensures Valid() && fresh(t)
      ensures getFinalOverride(thingTemplate).nextOverride == t
      ensures t.data == getFinalOverride(thingTemplate).data
      ensures t.copiedFromDefault && t.isAllocated
      ensures t !in templates && t !in templateMap.Values
      ensures unchanged(this)
    {
      t := new ThingTemplate();
      var overridden := getFinalOverride(thingTemplate);
      t.data := overridden.data;  // the copy-assignment
      t.copiedFromDefault := true;
      t.isAllocated := true;
      overridden.nextOverride := t;
    }

    /** Unlinks every template from the head on and clears the map; the counter stays. */
    method FreeDatabase()
      requires Valid()
      modifies this
      ensures Valid() && templates == [] && firstTemplate == null && templateMap == map[]
      ensures nextTemplateID == old(nextTemplateID)
      ensures Registered() && KeysAreNames()
      ensures old(IdsIssuedInOrder()) ==> IdsIssuedInOrder()
    {
      while firstTemplate != null
        invariant Valid()
        invariant nextTemplateID == old(nextTemplateID)
        decreases |templates|
      {
        var t := firstTemplate;
        firstTemplate := t.nextTemplate;
        LinkedSuffix(templates, 1);
        templates := templates[1..];
      }
      templateMap := map[];
    }

    /** Visits the templates from the head on, as the calls to Resolve_Names do,
        and returns them in the order visited. */
    method PostProcessLoad() returns (visited: seq<ThingTemplate>)
      requires Valid()
      ensures visited == templates
    {
      visited := [];
      var t := firstTemplate;
      while t != null
        invariant |visited| <= |templates|
        invariant visited == templates[..|visited|]
        invariant |visited| < |templates| ==> t == templates[|visited|]
        invariant |visited| == |templates| ==> t == null
        decreases |templates| - |visited|
      {
        visited := visited + [t];
        t := t.nextTemplate;
      }
    }

    /** Reset's walk over the list from the head: the head it ends with and the map
        with the name of every template whose Delete_Overrides returns null erased.
        The walk keeps the head and the map in locals; Reset stores them. */
    method ResetWalk(deleteOverrides: ThingTemplate -> bool)
      returns (head: ThingTemplate?, m: map<string, ThingTemplate>)
      requires Valid()
      ensures LeadingDeleted(templates, deleteOverrides) < |templates| ==>
        head == templates[LeadingDeleted(templates, deleteOverrides)]
      ensures LeadingDeleted(templates, deleteOverrides) == |templates| ==> head == null
      ensures m == templateMap - DeletedNames(templates, deleteOverrides)
    {
      ghost var ts := templates;
      ghost var i := 0;
      ghost var lead := 0;
      head := firstTemplate;
      m := templateMap;
      var t := head;
      while t != null
        invariant 0 <= lead <= i <= |ts|
        invariant i < |ts| ==> t == ts[i]
        invariant i == |ts| ==> t == null
        invariant lead == LeadingDeleted(ts[..i], deleteOverrides)
        invariant lead < |ts| ==> head == ts[lead]
        invariant lead == |ts| ==> head == null
        invariant m == EraseDeleted(templateMap, ts[..i], deleteOverrides)
        decreases |ts| - i
      {
        var first := t == head;
        ResetStep(ts, i, lead, templateMap, deleteOverrides);
        var next := t.nextTemplate;
        var str := t.name;
        var gone := deleteOverrides(t);
        if gone {
          if first {
            head := next;
          }
          m := m - {str};
        }
        lead := if gone && first then lead + 1 else lead;
        t := next;
        i := i + 1;
      }
      assert ts[..i] == ts;
      EraseDeletedRemovesNames(templateMap, ts, deleteOverrides);
    }

    /** Walks the list; for each template whose Delete_Overrides returns null, erases its
        name from the map, and advances the head past it when it is the current head. */
    method Reset(deleteOverrides: ThingTemplate -> bool)
      requires Valid()
      modifies this
      ensures Valid()
      ensures templates == old(templates)[LeadingDeleted(old(templates), deleteOverrides)..]
      ensures templateMap == old(templateMap) - old(DeletedNames(templates, deleteOverrides))
      ensures nextTemplateID == old(nextTemplateID)
    {
      var head, m := ResetWalk(deleteOverrides);
      ghost var lead := LeadingDeleted(templates, deleteOverrides);
      LinkedSuffix(templates, lead);
      firstTemplate := head;
      templateMap := m;
      templates := templates[lead..];
    }

    /** Looks up the first template in list order with the given ID, or null. */
    method FindTemplateById(id: uint16) returns (r: ThingTemplate?)
      requires Valid()
      ensures r == null <==> forall i :: 0 <= i < |templates| ==> templates[i].templateID != id
      ensures r != null ==> exists i :: 0 <= i < |templates| && templates[i] == r && r.templateID == id &&
                                        (forall j :: 0 <= j < i ==> templates[j].templateID != id)
    {
      var t := firstTemplate;
      ghost var i := 0;
      while t != null
        invariant 0 <= i <= |templates|
        invariant i < |templates| ==> t == templates[i]
        invariant i == |templates| ==> t == null
        invariant forall j :: 0 <= j < i ==> templates[j].templateID != id
        decreases |templates| - i
      {
        if t.templateID == id {
          return t;
        }
        t := t.nextTemplate;
        i := i + 1;
      }
      return null;
    }

    /** Looks a name up in the map. An absent "***TESTING" name gets a new template,
        mapped under that name with "Un-namedTemplate" erased; any other absent name
        gives null and changes nothing. */
    method FindTemplateInternal(name: string) returns (r: ThingTemplate?)
      requires Valid()
      modifies this
      decreases if name in templateMap then 0 else 1
      ensures Valid()
      ensures name in old(templateMap) ==> r == old(templateMap[name]) && unchanged(this)
      ensures name !in old(templateMap) && !IsTestingName(name) ==> r == null && unchanged(this)
      ensures name !in old(templateMap) && IsTestingName(name) ==>
        r != null && fresh(r) && r.templateID == old(nextTemplateID) &&
        templates == [r] + old(templates) &&
        templateMap == (old(templateMap) - {UnnamedTemplateName})[name := r] &&
        nextTemplateID == Increment(old(nextTemplateID))
      ensures old(Registered()) ==> Registered()
    {
      if name in templateMap {
        return templateMap[name];
      }
      if IsTestingName(name) {
        var t := NewTemplate(UnnamedTemplateName);
        templateMap := templateMap - {UnnamedTemplateName};
        templateMap := templateMap[name := t];
        r := FindTemplateInternal(name);
      } else {
        r := null;
      }
    }

    /** The null check before handing a template to the game client. */
    function NewDrawable(t: ThingTemplate?): (r: Result<ThingTemplate>)
      ensures r.Err? <==> t == null
      ensures r.Err? ==> r.error == Code03
      ensures r.Ok? ==> r.value == t
    {
      if t == null then Err(Code03) else var found: ThingTemplate := t; Ok(found)
    }
  }
}
