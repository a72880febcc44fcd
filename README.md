# Collision-test records and the thing-template registry

This project models two sequential pieces of a C++ game engine and proves properties about them.

- **ColTest** (`coltest.dfy`) models the collision-test records of the renderer.
  - The base record `CollisionTestClass` holds a result handle, a collision-type tag and the render object that was struck. Its two constructors are modelled.
  - The swept box tests `AABoxCollisionTestClass` and `OBBoxCollisionTestClass` add a box, a move vector and cached sweep bounds.
  - Their broad-phase `Cull(min, max)` rejects a candidate axis-aligned box from the sweep bounds alone.
  - Coordinates are `real`. The two box-test classes hold the base fields directly.
- **Things** (`thingfactory.dfy`) models `ThingFactory`, the registry of thing templates. It keeps three parts side by side:
  - an intrusive singly-linked list. Its head is `firstTemplate`, each template links on through `nextTemplate`, and new templates are prepended;
  - a name-to-template map;
  - a 16-bit ID counter that starts at 1.

  The list is a real chain of `ThingTemplate` objects. `Valid()` ties it to a ghost sequence `templates`, head first, with no template occurring twice. Every method that walks the chain is a `while` loop over the real links.

  `Valid()` is the one invariant every method keeps. Three further registry properties are stated beside it, each kept by the operations listed:
  - `Registered`: every template in the map is in the list. `AddTemplate`, `NewTemplate`, `FindTemplateInternal` and `FreeDatabase` keep it in their contracts. `NewOverride` changes no registry state. For `Reset` it is kept by the lemma `ErasedNamesKeepRegistered`, given `KeysAreNames` beforehand.
  - `KeysAreNames`: every key is the name of the template it maps to. `AddTemplate`, `NewTemplate` and `FreeDatabase` keep it, and so does `Reset`, by the same lemma. The testing path of `FindTemplateInternal` does not keep it (see below).
  - `IdsIssuedInOrder`: every ID lies in [1, counter) and the IDs strictly decrease from the head. A counter of 0 stands for 0x10000, the state after ID 0xFFFF has been issued. `FreeDatabase` keeps it in its contract. Stamping with the counter and prepending keeps it by `IdsIssuedPrepend`, unless the counter is already 0; this covers `NewTemplate` and the testing path of `FindTemplateInternal`. `Reset` keeps it by `IdsIssuedSuffix`. `AddTemplate` on its own does not keep it, because it takes a template with any ID.

  The registry calls template operations whose code is not part of this model. `Delete_Overrides` and `Get_Final_Override` are passed in as function parameters. The copy-assignment `*t = *other` copies an abstract `data` field.

## Model

| member | source | states |
|---|---|---|
| ColTest.CollisionTest.constructor | src/w3d/renderer/coltest.h:37-40 | stores the result handle and the collision type as given; no object has been struck yet |
| ColTest.CollisionTest.Copy | src/w3d/renderer/coltest.h:42-45 | copies all three fields, including a struck object that is already recorded |
| ColTest.AABoxCollisionTest.Cull | src/w3d/renderer/coltest.h:79-93 | reads only the sweep bounds; culls exactly when the sweep and the candidate are separated on some axis |
| ColTest.OBBoxCollisionTest.Cull | src/w3d/renderer/coltest.h:118-132 | the same characterisation for the oriented-box test |
| ColTest.CullConservative | src/w3d/renderer/coltest.h:79-93 | a candidate that shares a point with the sweep bounds is never culled |
| ColTest.CullExact | src/w3d/renderer/coltest.h:79-93 | for well-formed boxes, Cull is true exactly when no point lies in both boxes (both directions) |
| ColTest.CullKeepsTouchingBoxes | src/w3d/renderer/coltest.h:81-83 | the comparisons are strict: boxes that meet only on the X face are not culled, and every common point lies on that face |
| ColTest.CullAxisOrderIrrelevant | src/w3d/renderer/coltest.h:79-93 | checking the three axes in any other order gives the same answer |
| ColTest.CullVariantsAgree | src/w3d/renderer/coltest.h:118-132 | the two box tests agree for equal sweep bounds and the same candidate |
| ColTest.CullIgnoresOtherFields | src/w3d/renderer/coltest.h:68-72 | changing box, move, result, tag or struck object leaves every Cull answer unchanged |
| ColTest.CullKeepsBoxesOnPath | src/w3d/renderer/coltest.h:69-72 | where the sweep bounds enclose the box before and after the move, a candidate touching the box moved by any fraction s in [0, 1] of the move is not culled: the test is conservative against the whole swept volume |
| Things.ThingFactory.constructor | src/game/common/thing/thingfactory.cpp:23 | empty list with null head, empty map, counter 1 |
| Things.ThingFactory.AddTemplate | src/game/common/thing/thingfactory.cpp:112-121 | t becomes the head and links to the old head; its name maps to it, overwriting a duplicate; the counter is unchanged; Registered and KeysAreNames are kept |
| Things.ThingFactory.NewTemplate | src/game/common/thing/thingfactory.cpp:30-50 | a fresh template is prepended, copied from "DefaultThingTemplate" exactly when that name is registered, stamped with the old counter and given the name; the counter wraps through 16 bits; Registered and KeysAreNames are kept |
| Things.IdsIssuedPrepend | src/game/common/thing/thingfactory.cpp:40-45 | stamping a prepended template with the counter and incrementing keeps the IDs issued in order, including ID 0xFFFF, after which the counter wraps to 0; only a counter that is already 0 breaks it |
| Things.IdsIssuedDistinct | src/game/common/thing/thingfactory.cpp:40-41 | while the IDs are issued in order, no two templates share an ID |
| Things.LinkedPrepend | src/game/common/thing/thingfactory.cpp:118-119 | prepending a template that links to the old head keeps the chain well linked and free of repeats |
| Things.ThingFactory.NewOverride | src/game/common/thing/thingfactory.cpp:52-66 | a fresh copy of the final override, marked copied and allocated, is chained after that override; the list, map and counter are untouched and the copy is in neither |
| Things.ThingFactory.FreeDatabase | src/game/common/thing/thingfactory.cpp:68-77 | unlinks from the head until the list is empty, then clears the map; the counter stays, and the ID invariant still holds |
| Things.ThingFactory.PostProcessLoad | src/game/common/thing/thingfactory.cpp:79-84 | visits every template once, in list order from the head |
| Things.ThingFactory.ResetWalk | src/game/common/thing/thingfactory.cpp:88-109 | the walk ends with the head past the leading run of deleted templates, and with the names of all deleted templates erased from the map |
| Things.ThingFactory.Reset | src/game/common/thing/thingfactory.cpp:86-110 | the list loses exactly the leading run of deleted templates and keeps all others; the map loses exactly their names; the counter is unchanged |
| Things.LeadingDeletedIsRun | src/game/common/thing/thingfactory.cpp:94-104 | the templates Reset drops from the list are the longest run at the front for which Delete_Overrides returns null |
| Things.LeadingDeletedSnoc | src/game/common/thing/thingfactory.cpp:101-104 | the head moves on at a deleted template only while every template before it was dropped as well |
| Things.EraseDeletedRemovesNames | src/game/common/thing/thingfactory.cpp:101-106 | erasing names one template at a time removes exactly the names of the deleted templates |
| Things.DeletedNamesSnoc | src/game/common/thing/thingfactory.cpp:98-106 | visiting one more template adds its name to the erased names exactly when it is deleted |
| Things.ErasedNamesKeepRegistered | src/game/common/thing/thingfactory.cpp:86-110 | Reset keeps the registry consistent: every remaining map entry is a template still in the list, under its own name |
| Things.ThingFactory.FindTemplateById | src/game/common/thing/thingfactory.cpp:123-133 | returns the first template in list order with the ID, or null exactly when no template has it; changes nothing |
| Things.ThingFactory.FindTemplateInternal | src/game/common/thing/thingfactory.cpp:135-157 | a registered name gives its entry and changes nothing; an absent name without the "***TESTING" prefix gives null and changes nothing; an absent testing name gives one fresh template, prepended and stamped with the counter, mapped under the name with "Un-namedTemplate" erased; Registered is kept |
| Things.ThingFactory.NewDrawable | src/game/common/thing/thingfactory.cpp:170-177 | a null template is the error CODE_03; any other template is passed on unchanged |

## Left out

- The bodies of the box-test constructors, of `Cull(const AABoxClass&)`, `Rotate` and `Transform` are not in the source. The sweep bounds, box and move are therefore given state. `CullKeepsBoxesOnPath` states as a hypothesis how the bounds relate to the box.
- IEEE float behaviour is not modelled: coordinates are `real`, so NaN and rounding are out of scope.
- The base class is not a separate type. The box-test classes carry its three fields directly, because the model has no inheritance.
- `Delete_Overrides` and `Get_Final_Override` are parameters. Their code is not part of this model. `Reset` and `NewOverride` are proved for every behaviour that has no side effects and depends only on the template passed in.
- Things.ThingFactory.Reset: the effects of `Delete_Overrides` are not modelled, including any disposal of a template for which it returns null. Such a template that is not at the head stays linked in the model's list, while its name leaves the map. The source copies the name and the successor before the call, which matters only if the call can free the template.
- Things.ThingFactory.NewOverride: `getFinalOverride` is not tied to the `nextOverride` chain, so the contract does not state that the copy becomes the new final override. Two calls with the same function both chain after the same node.
- `Init_For_LTA`, `Resolve_Names` and `Delete_Instance` are not modelled, because their code is not part of this model. `PostProcessLoad` returns the visit order in place of calling `Resolve_Names`. `FreeDatabase` unlinks the templates without freeing them.
- The copy-assignment of a template is reduced to copying its `data` field, which stands for the template's own fields.
- Pool allocation is ordinary `new`.
- Debug assertions (`captainslog_dbgassert`) are not modelled. The `b` argument of `Find_Template_Internal` only chooses whether one is raised, so it is dropped.
- `Find_Template("DefaultThingTemplate", false)` inside `New_Template` is modelled as a plain map lookup. The name has no "***TESTING" prefix, so the lookup can only find or miss.
- Template IDs are modelled as unsigned 16-bit, the type `Find_Template_By_ID` takes.
- `New_Object` and the `Create_Drawable` call in `New_Drawable` call into code that is not part of this model. `object.cpp` is not part of this model.
- The destructor only calls `Free_Database`, which is modelled.
- Things.ThingFactory.AddTemplate: requires that the template is not already in the list. Re-adding a listed template would make the source's chain cyclic, which the model does not represent. Every caller passes a fresh template.
- Things.ThingFactory.Reset: the invariants are kept by lemmas over its result, `ErasedNamesKeepRegistered` and `IdsIssuedSuffix`, not by clauses of its own contract.
- Things.ThingFactory.NewTemplate: the ID invariant is kept by the lemma `IdsIssuedPrepend`, not by a clause of its own contract. The same lemma covers the testing path of `FindTemplateInternal`.
- Things.ThingFactory.ResetWalk: the walk keeps the head and the map in locals, and `Reset` stores them afterwards. The source writes `m_firstTemplate` and erases map keys during the walk, and `Delete_Overrides` runs between those writes and the next iteration's read of `m_firstTemplate`. The modelled `Delete_Overrides` has no effects and cannot see the factory, so the result is the same. A `Delete_Overrides` that reads or changes the factory is not captured.
- Things.ThingFactory.FindTemplateInternal: does not state `KeysAreNames` afterwards on the testing path. The new template is named "Un-namedTemplate" but is mapped under the requested name, and the renaming that `Init_For_LTA` may do is not modelled.
