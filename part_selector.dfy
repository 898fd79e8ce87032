/**
 * The part selector: the names of the parts that can be placed, the model
 * file behind each name, and the buttons that start placing one.
 */
module PartSelector {
  import opened Wrappers
  import opened Ecs
  import opened Handle
  import opened Placing
  import opened ConstraintTypes
  import opened Actions

  /** The part names, in the order the selector lists its buttons. */
  function GetParts(): (r: seq<string>)
    ensures |r| == 5
    ensures forall i, j :: 0 <= i < j < |r| ==> r[i] != r[j]
  {
    ["Duck", "Cube", "Penguin", "2x25 C-Channel", "2x1 C-Channel"]
  }

  /**
   * The value of the first row whose key is `key`, or `default` when no row
   * has that key: a `match` on string literals, arm by arm.
   */
  function Lookup(table: seq<(string, string)>, key: string, default: string): string {
    if table == [] then default
    else if table[0].0 == key then table[0].1
    else Lookup(table[1..], key, default)
  }

  /** `Lookup` answers the first row with the key, and the default when there is none. */
  lemma {:induction false} LookupFirst(table: seq<(string, string)>, key: string, default: string)
    ensures (forall i :: 0 <= i < |table| ==> table[i].0 != key) ==> Lookup(table, key, default) == default
    ensures forall i :: 0 <= i < |table| && table[i].0 == key && (forall j :: 0 <= j < i ==> table[j].0 != key) ==>
      Lookup(table, key, default) == table[i].1
  {
    if table != [] {
      LookupFirst(table[1..], key, default);
      if table[0].0 != key {
        forall i | 0 <= i < |table| && table[i].0 == key && (forall j :: 0 <= j < i ==> table[j].0 != key)
          ensures Lookup(table, key, default) == table[i].1
        {
          assert table[1..][i - 1] == table[i];
        }
      }
    }
  }

  /** The arms of `get_model_name`: part name to model file. */
  const PartFiles: seq<(string, string)> := [
    ("Duck", "low_poly_duck.glb"),
    ("Cube", "cube.glb"),
    ("Penguin", "penguin.glb"),
    ("2x25 C-Channel", "c-channel-1x2x1x25.glb"),
    ("2x1 C-Channel", "c-channel-1x2x1x1.glb")]

  /** The arms of `reverse_model_name`: model path to part name. */
  const PathParts: seq<(string, string)> := [
    ("models/low_poly_duck.glb#Scene0", "Duck"),
    ("models/cube.glb#Scene0", "Cube"),
    ("models/penguin.glb#Scene0", "Penguin"),
    ("models/c-channel-1x2x1x25.glb#Scene0", "2x25 C-Channel"),
    ("models/c-channel-1x2x1x1.glb#Scene0", "2x1 C-Channel")]

  /** The model file of a part name; any other text gives "duck". */
  function GetModelName(text: string): string {
    Lookup(PartFiles, text, "duck")
  }

  /** The asset path the button system formats for a model file. */
  function ModelPath(file: string): string {
    "models/" + file + "#Scene0"
  }

  /** The paths `reverse_model_name` accepts. */
  predicate IsModelPath(path: string) {
    exists i :: 0 <= i < |PathParts| && PathParts[i].0 == path
  }

  /** The part name of a model path; every other path panics, so it is excluded. */
  function ReverseModelName(path: string): (name: string)
    requires IsModelPath(path)
  {
    Lookup(PathParts, path, "")
  }

  predicate IsGlb(file: string) {
    |file| >= 4 && file[|file| - 4..] == ".glb"
  }

  /** The keys of both tables are pairwise distinct, so each arm is reached by exactly one text. */
  lemma TablesDistinct()
    ensures forall i, j :: 0 <= i < j < |PartFiles| ==> PartFiles[i].0 != PartFiles[j].0
    ensures forall i, j :: 0 <= i < j < |PathParts| ==> |PathParts[i].0| != |PathParts[j].0|
  {
  }

  /** The arms of `get_model_name` are the listed parts, in order, each mapped to a .glb file. */
  lemma PartFilesListed()
    ensures |PartFiles| == |GetParts()|
    ensures forall i :: 0 <= i < |PartFiles| ==> PartFiles[i].0 == GetParts()[i] && IsGlb(PartFiles[i].1)
  {
  }

  lemma PathRow0()
    ensures PathParts[0].1 == PartFiles[0].0 && PathParts[0].0 == ModelPath(PartFiles[0].1)
  {
  }

  lemma PathRow1()
    ensures PathParts[1].1 == PartFiles[1].0 && PathParts[1].0 == ModelPath(PartFiles[1].1)
  {
  }

  lemma PathRow2()
    ensures PathParts[2].1 == PartFiles[2].0 && PathParts[2].0 == ModelPath(PartFiles[2].1)
  {
  }

  lemma PathRow3()
    ensures PathParts[3].1 == PartFiles[3].0 && PathParts[3].0 == ModelPath(PartFiles[3].1)
  {
  }

  lemma PathRow4()
    ensures PathParts[4].1 == PartFiles[4].0 && PathParts[4].0 == ModelPath(PartFiles[4].1)
  {
  }

  /** Row `i` of `reverse_model_name` undoes row `i` of `get_model_name` after formatting. */
  lemma PathRows()
    ensures |PathParts| == |PartFiles|
    ensures forall i :: 0 <= i < |PathParts| ==>
      PathParts[i].1 == PartFiles[i].0 && PathParts[i].0 == ModelPath(PartFiles[i].1)
  {
    PathRow0(); PathRow1(); PathRow2(); PathRow3(); PathRow4();
  }

  /** `get_model_name` gives a .glb file exactly for the listed parts, and "duck" for any other text. */
  lemma ModelNameListed(text: string)
    ensures text in GetParts() <==> GetModelName(text) != "duck"
    ensures text in GetParts() ==> IsGlb(GetModelName(text))
    ensures text !in GetParts() ==> GetModelName(text) == "duck"
  {
    LookupFirst(PartFiles, text, "duck");
    PartFilesListed();
    TablesDistinct();
    if text in GetParts() {
      var i :| 0 <= i < |GetParts()| && GetParts()[i] == text;
      assert GetModelName(text) == PartFiles[i].1;
      assert IsGlb(GetModelName(text));
    }
  }

  /** The row `reverse_model_name` takes for `path` leads back to `path` through `get_model_name`. */
  lemma ReverseModelNameInverts(path: string)
    requires IsModelPath(path)
    ensures ReverseModelName(path) in GetParts()
    ensures ModelPath(GetModelName(ReverseModelName(path))) == path
  {
    TablesDistinct();
    PartFilesListed();
    PathRows();
    var i :| 0 <= i < |PathParts| && PathParts[i].0 == path;
    LookupFirst(PathParts, path, "");
    LookupFirst(PartFiles, PartFiles[i].0, "duck");
    assert Lookup(PathParts, path, "") == PartFiles[i].0;
    assert GetModelName(PartFiles[i].0) == PartFiles[i].1;
  }

  /** Formatting the model path of a listed part and reversing it gives the part back. */
  lemma PathRoundTrip(p: string)
    requires p in GetParts()
    ensures IsModelPath(ModelPath(GetModelName(p)))
    ensures ReverseModelName(ModelPath(GetModelName(p))) == p
  {
    LookupFirst(PartFiles, p, "duck");
    TablesDistinct();
    PartFilesListed();
    PathRows();
    var i :| 0 <= i < |GetParts()| && GetParts()[i] == p;
    assert GetModelName(p) == PartFiles[i].1;
    assert PathParts[i].0 == ModelPath(GetModelName(p));
  }

  /** Distinct listed parts have distinct model files. */
  lemma ModelNameInjective(p: string, q: string)
    requires p in GetParts() && q in GetParts() && p != q
    ensures GetModelName(p) != GetModelName(q)
  {
    PathRoundTrip(p);
    PathRoundTrip(q);
  }

  /** Text that is no part name formats to a path no arm of `reverse_model_name` accepts. */
  lemma UnknownTextHasNoModel(text: string)
    requires text !in GetParts()
    ensures !IsModelPath(ModelPath(GetModelName(text)))
  {
    ModelNameListed(text);
    assert |ModelPath(GetModelName(text))| == 18;
    assert forall i :: 0 <= i < |PathParts| ==> |PathParts[i].0| > 18;
  }

  datatype Interaction = Pressed | Hovered | NoInteraction

  datatype CursorIcon = DefaultIcon | PointerIcon

  /** A button whose `Interaction` changed this frame, with the text of its text. */
  datatype ButtonChange = ButtonChange(interaction: Interaction, text: string)

  /** The background colour (as hex) the button system gives a button. */
  function ButtonColour(i: Interaction): string {
    match i
    case Pressed => "AAAAAA"
    case Hovered => "999999"
    case NoInteraction => "777777"
  }

  /** The colours of the changed buttons, in query order. */
  function ButtonColours(changes: seq<ButtonChange>): seq<string>
  {
    if changes == [] then [] else ButtonColours(changes[..|changes| - 1]) + [ButtonColour(changes[|changes| - 1].interaction)]
  }

  /** Each changed button gets the colour of its own interaction. */
  lemma {:induction false} ButtonColoursEach(changes: seq<ButtonChange>)
    ensures |ButtonColours(changes)| == |changes|
    ensures forall j :: 0 <= j < |changes| ==> ButtonColours(changes)[j] == ButtonColour(changes[j].interaction)
  {
    if changes != [] {
      var init := changes[..|changes| - 1];
      ButtonColoursEach(init);
      assert forall j :: 0 <= j < |init| ==> init[j] == changes[j];
    }
  }

  /** The labels of the pressed buttons, in query order. */
  function Presses(changes: seq<ButtonChange>): (r: seq<string>)
    ensures |r| <= |changes|
  {
    if changes == [] then []
    else
      var last := changes[|changes| - 1];
      Presses(changes[..|changes| - 1]) + (if last.interaction == Pressed then [last.text] else [])
  }

  /** Pressing the buttons of `a`, then those of `b`, gives the labels of `a`'s presses followed by `b`'s. */
  lemma {:induction false} PressesAppend(a: seq<ButtonChange>, b: seq<ButtonChange>)
    ensures Presses(a + b) == Presses(a) + Presses(b)
  {
    if b == [] {
      assert a + b == a;
    } else {
      var init := b[..|b| - 1];
      assert (a + b)[..|a + b| - 1] == a + init;
      assert (a + b)[|a + b| - 1] == b[|b| - 1];
      PressesAppend(a, init);
    }
  }

  /** A single change contributes its label exactly when it is a press. */
  lemma PressesOne(c: ButtonChange)
    ensures Presses([c]) == if c.interaction == Pressed then [c.text] else []
  {
    assert [c][..0] == [];
  }

  /** The window's cursor icon after the changes: the last hover or leave decides. */
  function FinalIcon(changes: seq<ButtonChange>, icon: CursorIcon): CursorIcon {
    if changes == [] then icon
    else
      match changes[|changes| - 1].interaction
      case Hovered => PointerIcon
      case NoInteraction => DefaultIcon
      case Pressed => FinalIcon(changes[..|changes| - 1], icon)
  }

  /** The placing request a press on the button labelled `text` sends. */
  function PressEvent(text: string, handles: seq<SceneHandle>): (ev: PlacingEvent)
    requires |handles| > 0
    ensures ev.path == ModelPath(GetModelName(text))
    ensures ev.handle == ModelHandle(handles, ev.path) && ev.handle in handles
  {
    var path := ModelPath(GetModelName(text));
    PlacingEvent(path, ModelHandle(handles, path))
  }

  /** The placing requests for presses on the buttons labelled `texts`, in order. */
  function PressEvents(texts: seq<string>, handles: seq<SceneHandle>): (r: seq<PlacingEvent>)
    requires texts == [] || |handles| > 0
    ensures |r| == |texts|
    ensures forall k :: 0 <= k < |texts| ==> r[k] == PressEvent(texts[k], handles)
  {
    if texts == [] then [] else PressEvents(texts[..|texts| - 1], handles) + [PressEvent(texts[|texts| - 1], handles)]
  }

  /** Every handle search that a press would run can be answered without a panic. */
  predicate PressesSearchable(changes: seq<ButtonChange>, handles: seq<SceneHandle>) {
    forall i :: 0 <= i < |changes| && changes[i].interaction == Pressed ==>
      Searchable(handles, ModelPath(GetModelName(changes[i].text)))
  }

  /** `n` placeholder actions. */
  function PlaceHolders(n: nat): (r: seq<Action>)
    ensures |r| == n && forall k :: 0 <= k < n ==> r[k] == PlaceHolder
  {
    if n == 0 then [] else PlaceHolders(n - 1) + [PlaceHolder]
  }

  /**
   * What one press does outside constraining mode: ask for `NotPlacing`, log a
   * placeholder, despawn every placing preview, and return the request to
   * place the pressed part's model.
   */
  method StartPlacing(text: string, handles: seq<SceneHandle>,
                      world: World, placing: StateMachine<PlacingState>, log: ActionList)
    returns (ev: PlacingEvent)
    requires world.Valid() && Searchable(handles, ModelPath(GetModelName(text)))
    modifies world, placing, log
    ensures world.Valid() && world.nextIndex == old(world.nextIndex)
    ensures world.alive == WithoutPreviews(old(world.alive))
    ensures placing.next == Some(NotPlacing) && placing.current == old(placing.current)
    ensures log.list == old(log.list) + [PlaceHolder]
    ensures |handles| > 0 && ev == PressEvent(text, handles)
  {
    var path := ModelPath(GetModelName(text));
    var handle := GetModelHandle(path, handles);
    placing.Set(NotPlacing);
    log.Push(PlaceHolder);
    world.DespawnAllRecursive(world.Previews());
    ev := PlacingEvent(path, handle);
  }

  /** The cursor icon after one button change: hovering shows the pointer, leaving the default. */
  function IconAfter(i: Interaction, icon: CursorIcon): CursorIcon {
    match i
    case Hovered => PointerIcon
    case NoInteraction => DefaultIcon
    case Pressed => icon
  }

  /**
   * One iteration of `button_system`, for one changed button: the new
   * background colour, the new cursor icon and, for a press outside
   * constraining mode, the placing request sent.
   */
  method RespondToButton(c: ButtonChange, constrain: ConstrainState, handles: seq<SceneHandle>,
                         world: World, placing: StateMachine<PlacingState>, log: ActionList, icon: CursorIcon)
    returns (colour: string, newIcon: CursorIcon, sent: Option<PlacingEvent>)
    requires world.Valid()
    requires c.interaction == Pressed && constrain != Constraining ==>
      Searchable(handles, ModelPath(GetModelName(c.text)))
    modifies world, placing, log
    ensures world.Valid() && placing.current == old(placing.current)
    ensures colour == ButtonColour(c.interaction) && newIcon == IconAfter(c.interaction, icon)
    ensures c.interaction == Pressed && constrain != Constraining ==>
      sent == Some(PressEvent(c.text, handles)) && |handles| > 0 &&
      placing.next == Some(NotPlacing) && log.list == old(log.list) + [PlaceHolder] &&
      world.alive == WithoutPreviews(old(world.alive)) && world.nextIndex == old(world.nextIndex)
    ensures !(c.interaction == Pressed && constrain != Constraining) ==>
      sent == None && placing.next == old(placing.next) && log.list == old(log.list) &&
      world.alive == old(world.alive) && world.nextIndex == old(world.nextIndex)
  {
    sent := None;
    newIcon := icon;
    match c.interaction {
      case Pressed =>
        if constrain != Constraining {
          var ev := StartPlacing(c.text, handles, world, placing, log);
          sent := Some(ev);
        }
      case Hovered =>
        newIcon := PointerIcon;
      case NoInteraction =>
        newIcon := DefaultIcon;
    }
    colour := ButtonColour(c.interaction);
  }

  /** The log and the requests sent after the presses `presses`, starting from the log `log0`. */
  predicate PressesLogged(presses: seq<string>, handles: seq<SceneHandle>, log0: seq<Action>,
                          log: seq<Action>, events: seq<PlacingEvent>) {
    log == log0 + PlaceHolders(|presses|) && (presses == [] || |handles| > 0) && events == PressEvents(presses, handles)
  }

  lemma PressesLoggedStep(presses: seq<string>, t: string, handles: seq<SceneHandle>, log0: seq<Action>,
                          log: seq<Action>, events: seq<PlacingEvent>)
    requires PressesLogged(presses, handles, log0, log, events) && |handles| > 0
    ensures PressesLogged(presses + [t], handles, log0, log + [PlaceHolder], events + [PressEvent(t, handles)])
  {
    assert (presses + [t])[..|presses|] == presses;
  }

  /** The labels of the presses that start placing: none in constraining mode. */
  function PlacingPresses(changes: seq<ButtonChange>, constrain: ConstrainState): seq<string> {
    if constrain == Constraining then [] else Presses(changes)
  }

  /**
   * The state `button_system` has reached after the first `i` changes,
   * starting from the log `log0`, the store `alive0` (which is `cleared`
   * once its previews are despawned), the allocator at `n0` and the placing
   * request `next0`.
   */
  ghost predicate Handled(changes: seq<ButtonChange>, i: nat, constrain: ConstrainState, handles: seq<SceneHandle>,
                          icon: CursorIcon, colours: seq<string>, newIcon: CursorIcon, events: seq<PlacingEvent>,
                          log0: seq<Action>, log: seq<Action>, alive0: map<Entity, Components>, cleared: map<Entity, Components>,
                          alive: map<Entity, Components>, n0: nat, n: nat, next0: Option<PlacingState>, next: Option<PlacingState>) {
    i <= |changes| &&
    colours == ButtonColours(changes[..i]) &&
    newIcon == FinalIcon(changes[..i], icon) &&
    PressesLogged(PlacingPresses(changes[..i], constrain), handles, log0, log, events) &&
    n == n0 &&
    (PlacingPresses(changes[..i], constrain) == [] ==> next == next0 && alive == alive0) &&
    (PlacingPresses(changes[..i], constrain) != [] ==> next == Some(NotPlacing) && alive == cleared)
  }

  /** Despawning the previews after the first press despawns nothing more. */
  lemma ClearedAgain(alive0: map<Entity, Components>, alive: map<Entity, Components>, alive2: map<Entity, Components>, first: bool)
    requires first ==> alive == alive0
    requires !first ==> alive == WithoutPreviews(alive0)
    requires alive2 == WithoutPreviews(alive)
    ensures alive2 == WithoutPreviews(alive0)
  {
    if !first {
      WithoutPreviewsIdempotent(alive0);
    }
  }

  /** Extending the changes by one: its press is added, and its interaction sets the icon. */
  lemma PrefixStep(changes: seq<ButtonChange>, i: nat, constrain: ConstrainState, icon: CursorIcon)
    requires i < |changes|
    ensures PlacingPresses(changes[..i + 1], constrain) == PlacingPresses(changes[..i], constrain) +
      (if changes[i].interaction == Pressed && constrain != Constraining then [changes[i].text] else [])
    ensures FinalIcon(changes[..i + 1], icon) == IconAfter(changes[i].interaction, FinalIcon(changes[..i], icon))
    ensures ButtonColours(changes[..i + 1]) == ButtonColours(changes[..i]) + [ButtonColour(changes[i].interaction)]
  {
    assert changes[..i + 1][..i] == changes[..i];
    assert changes[..i + 1][i] == changes[i];
  }

  /** A press outside constraining mode extends the handled prefix by one. */
  lemma HandledPress(changes: seq<ButtonChange>, i: nat, constrain: ConstrainState, handles: seq<SceneHandle>,
                     icon: CursorIcon, colours: seq<string>, newIcon: CursorIcon, events: seq<PlacingEvent>,
                     log0: seq<Action>, log: seq<Action>, alive0: map<Entity, Components>, cleared: map<Entity, Components>,
                     alive: map<Entity, Components>, n0: nat, n: nat, next0: Option<PlacingState>, next: Option<PlacingState>)
    requires cleared == WithoutPreviews(alive0)
    requires Handled(changes, i, constrain, handles, icon, colours, newIcon, events, log0, log, alive0, cleared, alive, n0, n, next0, next)
    requires i < |changes| && changes[i].interaction == Pressed && constrain != Constraining && |handles| > 0
    ensures Handled(changes, i + 1, constrain, handles, icon, colours + [ButtonColour(Pressed)], IconAfter(Pressed, newIcon),
                    events + [PressEvent(changes[i].text, handles)], log0, log + [PlaceHolder], alive0, cleared,
                    WithoutPreviews(alive), n0, n, next0, Some(NotPlacing))
  {
    var before := PlacingPresses(changes[..i], constrain);
    PrefixStep(changes, i, constrain, icon);
    PressesLoggedStep(before, changes[i].text, handles, log0, log, events);
    ClearedAgain(alive0, alive, WithoutPreviews(alive), before == []);
  }

  /** Any other change extends the handled prefix by one, with only the colour and the icon recorded. */
  lemma HandledOther(changes: seq<ButtonChange>, i: nat, constrain: ConstrainState, handles: seq<SceneHandle>,
                     icon: CursorIcon, colours: seq<string>, newIcon: CursorIcon, events: seq<PlacingEvent>,
                     log0: seq<Action>, log: seq<Action>, alive0: map<Entity, Components>, cleared: map<Entity, Components>,
                     alive: map<Entity, Components>, n0: nat, n: nat, next0: Option<PlacingState>, next: Option<PlacingState>)
    requires Handled(changes, i, constrain, handles, icon, colours, newIcon, events, log0, log, alive0, cleared, alive, n0, n, next0, next)
    requires i < |changes| && !(changes[i].interaction == Pressed && constrain != Constraining)
    ensures Handled(changes, i + 1, constrain, handles, icon, colours + [ButtonColour(changes[i].interaction)],
                    IconAfter(changes[i].interaction, newIcon), events, log0, log, alive0, cleared, alive, n0, n, next0, next)
  {
    PrefixStep(changes, i, constrain, icon);
  }

  /** Responding to change `i` as `RespondToButton` does extends the handled prefix by one. */
  lemma HandledStep(changes: seq<ButtonChange>, i: nat, constrain: ConstrainState, handles: seq<SceneHandle>,
                    icon: CursorIcon, colours: seq<string>, newIcon: CursorIcon, events: seq<PlacingEvent>,
                    log0: seq<Action>, log: seq<Action>, alive0: map<Entity, Components>, cleared: map<Entity, Components>,
                    alive: map<Entity, Components>, n0: nat, n: nat, next0: Option<PlacingState>, next: Option<PlacingState>,
                    colour: string, icon2: CursorIcon, sent: Option<PlacingEvent>,
                    log2: seq<Action>, alive2: map<Entity, Components>, n2: nat, next2: Option<PlacingState>)
    requires cleared == WithoutPreviews(alive0)
    requires Handled(changes, i, constrain, handles, icon, colours, newIcon, events, log0, log, alive0, cleared, alive, n0, n, next0, next)
    requires i < |changes|
    requires colour == ButtonColour(changes[i].interaction) && icon2 == IconAfter(changes[i].interaction, newIcon)
    requires changes[i].interaction == Pressed && constrain != Constraining ==>
      |handles| > 0 && sent == Some(PressEvent(changes[i].text, handles)) && next2 == Some(NotPlacing) &&
      log2 == log + [PlaceHolder] && alive2 == WithoutPreviews(alive) && n2 == n
    requires !(changes[i].interaction == Pressed && constrain != Constraining) ==>
      sent == None && next2 == next && log2 == log && alive2 == alive && n2 == n
    ensures Handled(changes, i + 1, constrain, handles, icon, colours + [colour], icon2,
                    if sent.Some? then events + [sent.value] else events,
                    log0, log2, alive0, cleared, alive2, n0, n2, next0, next2)
  {
    if changes[i].interaction == Pressed && constrain != Constraining {
      HandledPress(changes, i, constrain, handles, icon, colours, newIcon, events, log0, log, alive0, cleared, alive, n0, n, next0, next);
    } else {
      HandledOther(changes, i, constrain, handles, icon, colours, newIcon, events, log0, log, alive0, cleared, alive, n0, n, next0, next);
    }
  }

  /**
   * `button_system`. Every changed button is recoloured and hover or leave
   * sets the cursor icon. Outside constraining mode, each press also asks for
   * `NotPlacing`, logs a placeholder, despawns every placing preview and
   * sends a placing request; in constraining mode a press only recolours.
   */
  method ButtonSystem(changes: seq<ButtonChange>, constrain: ConstrainState, handles: seq<SceneHandle>,
                      world: World, placing: StateMachine<PlacingState>, log: ActionList, icon: CursorIcon)
    returns (colours: seq<string>, newIcon: CursorIcon, events: seq<PlacingEvent>)
    requires world.Valid()
    requires constrain != Constraining ==> PressesSearchable(changes, handles)
    modifies world, placing, log
    ensures world.Valid() && placing.current == old(placing.current)
    ensures |colours| == |changes|
    ensures forall i :: 0 <= i < |changes| ==> colours[i] == ButtonColour(changes[i].interaction)
    ensures newIcon == FinalIcon(changes, icon)
    ensures PressesLogged(PlacingPresses(changes, constrain), handles, old(log.list), log.list, events)
    ensures PlacingPresses(changes, constrain) == [] ==>
      placing.next == old(placing.next) && world.alive == old(world.alive) && world.nextIndex == old(world.nextIndex)
    ensures PlacingPresses(changes, constrain) != [] ==>
      placing.next == Some(NotPlacing) && world.alive == WithoutPreviews(old(world.alive)) &&
      world.nextIndex == old(world.nextIndex)
  {
    colours, newIcon, events := [], icon, [];
    ghost var cleared := WithoutPreviews(world.alive);
    for i := 0 to |changes|
      invariant world.Valid() && placing.current == old(placing.current)
      invariant Handled(changes, i, constrain, handles, icon, colours, newIcon, events, old(log.list), log.list,
                        old(world.alive), cleared, world.alive, old(world.nextIndex), world.nextIndex, old(placing.next), placing.next)
    {
      ghost var alive, n, next, logMid := world.alive, world.nextIndex, placing.next, log.list;
      var colour, icon2, sent := RespondToButton(changes[i], constrain, handles, world, placing, log, newIcon);
      HandledStep(changes, i, constrain, handles, icon, colours, newIcon, events, old(log.list), logMid,
                  old(world.alive), cleared, alive, old(world.nextIndex), n, old(placing.next), next,
                  colour, icon2, sent, log.list, world.alive, world.nextIndex, placing.next);
      colours, newIcon := colours + [colour], icon2;
      if sent.Some? {
        events := events + [sent.value];
      }
    }
    assert changes[..|changes|] == changes;
    ButtonColoursEach(changes);
  }
}
