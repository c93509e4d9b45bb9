/**
 * The actions page of the settings editor: the key-binding and key-chord view
 * models with their edit-mode state, and the page's list of key bindings that
 * its handlers edit in place.
 */
module Actions {
  import opened Wrappers
  import opened Vectors

  /** A key chord: modifier flags, virtual key and scan code. */
  datatype KeyChord = KeyChord(modifiers: nat, vkey: int, scanCode: int)

  /** Two chords name the same keys when their modifiers and virtual keys agree; the scan code is ignored. */
  predicate SameKeys(a: KeyChord, b: KeyChord)
  {
    a.modifiers == b.modifiers && a.vkey == b.vkey
  }

  // ------------------------------------------------------ key-binding view model

  /** Every field of a key-binding view model, as one value. */
  datatype KeyBindingState = KeyBindingState(
    currentKeys: Option<KeyChord>,
    currentAction: string,
    proposedKeys: Option<KeyChord>,
    proposedAction: string,
    isInEditMode: bool,
    isNewlyAdded: bool,
    isContainerFocused: bool,
    isEditButtonFocused: bool,
    isHovered: bool,
    isAutomationPeerAttached: bool)

  /** What a key binding sends when the user accepts its changes. */
  datatype ModifyKeyBindingArgs = ModifyKeyBindingArgs(
    oldKeys: Option<KeyChord>,
    newKeys: Option<KeyChord>,
    oldActionName: string,
    newActionName: string)

  class KeyBindingViewModel {
    var currentKeys: Option<KeyChord>
    var currentAction: string
    var proposedKeys: Option<KeyChord>
    var proposedAction: string
    var isInEditMode: bool
    var isNewlyAdded: bool
    var isContainerFocused: bool
    var isEditButtonFocused: bool
    var isHovered: bool
    var isAutomationPeerAttached: bool

    function State(): KeyBindingState
      reads this
    {
      KeyBindingState(currentKeys, currentAction, proposedKeys, proposedAction, isInEditMode,
                      isNewlyAdded, isContainerFocused, isEditButtonFocused, isHovered, isAutomationPeerAttached)
    }

    /** A binding of keys to the named action; the proposed action starts as the current one. */
    constructor (keys: Option<KeyChord>, actionName: string)
      ensures State() == KeyBindingState(keys, actionName, None, actionName, false, false, false, false, false, false)
    {
      currentKeys, currentAction := keys, actionName;
      proposedKeys, proposedAction := None, actionName;
      isInEditMode, isNewlyAdded := false, false;
      isContainerFocused, isEditButtonFocused, isHovered, isAutomationPeerAttached := false, false, false, false;
    }

    /** A binding without keys, for the first of the available actions. */
    constructor FromAvailableActions(availableActions: seq<string>)
      requires |availableActions| > 0
      ensures State() == KeyBindingState(None, availableActions[0], None, availableActions[0], false, false, false, false, false, false)
    {
      currentKeys, currentAction := None, availableActions[0];
      proposedKeys, proposedAction := None, availableActions[0];
      isInEditMode, isNewlyAdded := false, false;
      isContainerFocused, isEditButtonFocused, isHovered, isAutomationPeerAttached := false, false, false, false;
    }

    /** The edit button shows while the entry has focus or hover or a screen reader is attached, unless it is being edited. */
    function ShowEditButton(): bool
      reads this
    {
      (isContainerFocused || isEditButtonFocused || isHovered || isAutomationPeerAttached) && !isInEditMode
    }

    /** Flips edit mode; entering it resets the proposed keys and action to the current ones. */
    method ToggleEditMode()
      modifies this
      ensures isInEditMode == !old(isInEditMode)
      ensures isInEditMode ==>
        State() == old(State()).(isInEditMode := true, proposedKeys := currentKeys, proposedAction := currentAction)
      ensures !isInEditMode ==> State() == old(State()).(isInEditMode := false)
    {
      isInEditMode := !isInEditMode;
      if isInEditMode {
        proposedKeys := currentKeys;
        proposedAction := currentAction;
      }
    }

    /** The request sent for the given new keys; a newly added binding reports an empty old action. */
    function AttemptAcceptChangesWith(newKeys: Option<KeyChord>): (args: ModifyKeyBindingArgs)
      reads this
      ensures args.oldKeys == currentKeys && args.newKeys == newKeys && args.newActionName == proposedAction
      ensures args.oldActionName == if isNewlyAdded then [] else currentAction
    {
      ModifyKeyBindingArgs(currentKeys, newKeys, if isNewlyAdded then [] else currentAction, proposedAction)
    }

    /** The request sent for the proposed keys. */
    function AttemptAcceptChanges(): (args: ModifyKeyBindingArgs)
      reads this
      ensures args == AttemptAcceptChangesWith(proposedKeys)
    {
      AttemptAcceptChangesWith(proposedKeys)
    }

    /**
     * Cancelling a newly added binding asks the page to delete it and changes
     * nothing here; cancelling any other binding toggles its edit mode.
     */
    method CancelChanges() returns (deleteRequested: bool)
      modifies this
      ensures deleteRequested == old(isNewlyAdded)
      ensures deleteRequested ==> State() == old(State())
      ensures !deleteRequested ==> isInEditMode == !old(isInEditMode)
      ensures !deleteRequested && isInEditMode ==>
        State() == old(State()).(isInEditMode := true, proposedKeys := currentKeys, proposedAction := currentAction)
      ensures !deleteRequested && !isInEditMode ==> State() == old(State()).(isInEditMode := false)
    {
      deleteRequested := isNewlyAdded;
      if !deleteRequested {
        ToggleEditMode();
      }
    }
  }

  /** With a screen reader attached, a binding shows its edit button exactly when it is not being edited. */
  lemma EditButtonWithScreenReader(k: KeyBindingViewModel)
    requires k.isAutomationPeerAttached
    ensures k.ShowEditButton() <==> !k.isInEditMode
  {
  }

  /** A binding in edit mode never shows its edit button. */
  lemma NoEditButtonWhileEditing(k: KeyBindingViewModel)
    requires k.isInEditMode
    ensures !k.ShowEditButton()
  {
  }

  /** The page treats a request as adding a new action when it has no old keys and no old action name. */
  predicate IsNewAction(args: ModifyKeyBindingArgs)
  {
    args.oldKeys.None? && args.oldActionName == []
  }

  /**
   * Whether the page can compare a request's keys: a request that is not a
   * new action has the modifiers of its old and new keys read, so both must be there.
   */
  predicate KeysReadable(args: ModifyKeyBindingArgs)
  {
    IsNewAction(args) || (args.oldKeys.Some? && args.newKeys.Some?)
  }

  /** The keys of a request change when it is a new action or the keys differ in modifiers or virtual key. */
  predicate KeysChange(args: ModifyKeyBindingArgs)
    requires KeysReadable(args)
  {
    IsNewAction(args) || !SameKeys(args.oldKeys.value, args.newKeys.value)
  }

  /**
   * A keyless binding's request is a new action exactly when the binding is
   * newly added or has an empty action name; a binding with keys never sends one.
   */
  lemma NewActionIffNewlyAdded(k: KeyBindingViewModel, newKeys: Option<KeyChord>)
    ensures k.currentKeys.Some? ==> !IsNewAction(k.AttemptAcceptChangesWith(newKeys))
    ensures k.currentKeys.None? ==>
      (IsNewAction(k.AttemptAcceptChangesWith(newKeys)) <==> k.isNewlyAdded || k.currentAction == [])
  {
  }

  // ------------------------------------------------------ key-chord view model

  /** What a key chord asks of the page when its changes are accepted. */
  datatype KeyChordRequest =
    | NoRequest
    | AddKeyChord(keys: Option<KeyChord>)
    | ModifyKeyChord(oldKeys: KeyChord, newKeys: KeyChord)
      /** The chord has keys but no proposed keys, whose modifiers are then read: the page fails. */
    | NullProposedKeys

  class KeyChordViewModel {
    var currentKeys: Option<KeyChord>
    var proposedKeys: Option<KeyChord>
    var isInEditMode: bool

    constructor (keys: Option<KeyChord>)
      ensures currentKeys == keys && proposedKeys.None? && !isInEditMode
    {
      currentKeys, proposedKeys, isInEditMode := keys, None, false;
    }

    /** Flips edit mode; entering it resets the proposed keys to the current ones. */
    method ToggleEditMode()
      modifies this`isInEditMode, this`proposedKeys
      ensures isInEditMode == !old(isInEditMode)
      ensures proposedKeys == if isInEditMode then currentKeys else old(proposedKeys)
    {
      isInEditMode := !isInEditMode;
      if isInEditMode {
        proposedKeys := currentKeys;
      }
    }

    /** Cancelling toggles edit mode. */
    method CancelChanges()
      modifies this`isInEditMode, this`proposedKeys
      ensures isInEditMode == !old(isInEditMode)
      ensures proposedKeys == if isInEditMode then currentKeys else old(proposedKeys)
    {
      ToggleEditMode();
    }

    /**
     * A chord without keys asks to add the proposed keys; a chord with keys asks
     * to modify them only when the proposed keys differ in modifiers or virtual
     * key, and otherwise asks nothing. The proposed keys are read whenever there
     * are current keys: when they are absent the read fails.
     */
    function AttemptAcceptChanges(): (r: KeyChordRequest)
      reads this
      ensures r.AddKeyChord? <==> currentKeys.None?
      ensures r.AddKeyChord? ==> r.keys == proposedKeys
      ensures r.NullProposedKeys? <==> currentKeys.Some? && proposedKeys.None?
      ensures r.ModifyKeyChord? <==>
        currentKeys.Some? && proposedKeys.Some? && !SameKeys(currentKeys.value, proposedKeys.value)
      ensures r.ModifyKeyChord? ==> r.oldKeys == currentKeys.value && r.newKeys == proposedKeys.value
      ensures r.NoRequest? <==>
        currentKeys.Some? && proposedKeys.Some? && SameKeys(currentKeys.value, proposedKeys.value)
    {
      if currentKeys.None? then AddKeyChord(proposedKeys)
      else if proposedKeys.None? then NullProposedKeys
      else if !SameKeys(currentKeys.value, proposedKeys.value) then ModifyKeyChord(currentKeys.value, proposedKeys.value)
      else NoRequest
    }
  }

  /** Entering edit mode and accepting straight away never asks the page for anything for a bound chord. */
  lemma AcceptUnchangedChord(c: KeyChordViewModel)
    requires c.currentKeys.Some? && c.proposedKeys == c.currentKeys
    ensures c.AttemptAcceptChanges() == NoRequest
  {
  }

  // ------------------------------------------------------ command view model

  /** The shortcut actions the command editor tells apart. */
  datatype ShortcutAction = SendInput | CloseTab | OtherAction

  /** A command's action with its arguments. */
  datatype ActionAndArgs =
    | SendInputArgs(input: string)
    | CloseTabArgs(index: Option<nat>)
    | OtherArgs

  /** A command of the settings model. */
  datatype Command = Command(name: string, id: string, actionAndArgs: ActionAndArgs)

  /** The argument editor of a command: its action and the argument shown for it. */
  datatype ActionArgsViewModel = ActionArgsViewModel(selectedShortcutAction: ShortcutAction, stringArg1: string, uint32Arg1: nat)

  function ActionOf(a: ActionAndArgs): ShortcutAction
  {
    match a
    case SendInputArgs(_) => SendInput
    case CloseTabArgs(_) => CloseTab
    case OtherArgs => OtherAction
  }

  /**
   * The argument editor for a command: send-input shows its text, close-tab
   * its index (0 when there is none), and any other action no argument.
   */
  function MakeActionArgs(cmd: Command): ActionArgsViewModel
  {
    match cmd.actionAndArgs
    case SendInputArgs(input) => ActionArgsViewModel(SendInput, input, 0)
    case CloseTabArgs(index) => ActionArgsViewModel(CloseTab, [], if index.Some? then index.value else 0)
    case OtherArgs => ActionArgsViewModel(OtherAction, [], 0)
  }

  /** The labels under which the command editor offers its shortcut actions. */
  const SendInputLabel: string := "Send Input"
  const CloseTabLabel: string := "Close Tab"

  /**
   * One fresh key-chord view model per chord, in order, each bound to its
   * chord and outside edit mode.
   */
  method MakeKeyChordViewModels(chords: seq<KeyChord>) returns (vms: seq<KeyChordViewModel>)
    ensures |vms| == |chords|
    ensures forall j :: 0 <= j < |vms| ==> fresh(vms[j])
    ensures forall j :: 0 <= j < |vms| ==>
      vms[j].currentKeys == Some(chords[j]) && vms[j].proposedKeys.None? && !vms[j].isInEditMode
  {
    vms := [];
    for i := 0 to |chords|
      invariant |vms| == i
      invariant forall j :: 0 <= j < i ==> fresh(vms[j])
      invariant forall j :: 0 <= j < i ==>
        vms[j].currentKeys == Some(chords[j]) && vms[j].proposedKeys.None? && !vms[j].isInEditMode
    {
      var vm := new KeyChordViewModel(Some(chords[i]));
      vms := vms + [vm];
    }
  }

  class CommandViewModel {
    var command: Command
    var availableActions: seq<string>
    var keyChordViewModelList: seq<KeyChordViewModel>
    var currentAction: string
    var availableShortcutActions: seq<string>
    var proposedShortcutAction: Option<string>
    var currentShortcutAction: string
    var actionArgsVM: ActionArgsViewModel

    /**
     * The view model of a command: one key-chord view model per chord, the
     * command's name as its current action, the two shortcut actions the
     * editor offers with the command's own one selected when it is one of
     * them, and the argument editor for the command.
     */
    constructor (cmd: Command, keyChordList: seq<KeyChord>, availableActions: seq<string>)
      ensures command == cmd && this.availableActions == availableActions && currentAction == cmd.name
      ensures |keyChordViewModelList| == |keyChordList|
      ensures forall j :: 0 <= j < |keyChordList| ==> fresh(keyChordViewModelList[j])
      ensures forall j :: 0 <= j < |keyChordList| ==>
        var vm := keyChordViewModelList[j];
        vm.currentKeys == Some(keyChordList[j]) && vm.proposedKeys.None? && !vm.isInEditMode
      ensures availableShortcutActions == [SendInputLabel, CloseTabLabel]
      ensures ActionOf(cmd.actionAndArgs) == SendInput ==>
        currentShortcutAction == SendInputLabel && proposedShortcutAction == Some(SendInputLabel)
      ensures ActionOf(cmd.actionAndArgs) == CloseTab ==>
        currentShortcutAction == CloseTabLabel && proposedShortcutAction == Some(CloseTabLabel)
      ensures ActionOf(cmd.actionAndArgs) == OtherAction ==> currentShortcutAction == [] && proposedShortcutAction.None?
      ensures actionArgsVM == MakeActionArgs(cmd)
    {
      var vms := MakeKeyChordViewModels(keyChordList);
      command, this.availableActions, keyChordViewModelList := cmd, availableActions, vms;
      currentAction := cmd.name;
      availableShortcutActions := [SendInputLabel, CloseTabLabel];
      match ActionOf(cmd.actionAndArgs) {
        case SendInput =>
          proposedShortcutAction, currentShortcutAction := Some(SendInputLabel), SendInputLabel;
        case CloseTab =>
          proposedShortcutAction, currentShortcutAction := Some(CloseTabLabel), CloseTabLabel;
        case OtherAction =>
          proposedShortcutAction, currentShortcutAction := None, [];
      }
      actionArgsVM := MakeActionArgs(cmd);
    }

    /** Appends a fresh, keyless key chord that is already in edit mode, with nothing proposed yet. */
    method AddKeybindingClick() returns (added: KeyChordViewModel)
      modifies this`keyChordViewModelList
      ensures fresh(added)
      ensures keyChordViewModelList == old(keyChordViewModelList) + [added]
      ensures added.currentKeys.None? && added.proposedKeys.None? && added.isInEditMode
    {
      added := new KeyChordViewModel(None);
      added.isInEditMode := true;
      keyChordViewModelList := keyChordViewModelList + [added];
    }
  }

  /** The shortcut action a command view model shows is one the editor offers exactly when the command sends input or closes a tab. */
  lemma ShownShortcutActionOffered(c: CommandViewModel)
    requires c.availableShortcutActions == [SendInputLabel, CloseTabLabel]
    requires ActionOf(c.command.actionAndArgs) == SendInput ==> c.currentShortcutAction == SendInputLabel
    requires ActionOf(c.command.actionAndArgs) == CloseTab ==> c.currentShortcutAction == CloseTabLabel
    requires ActionOf(c.command.actionAndArgs) == OtherAction ==> c.currentShortcutAction == []
    ensures c.currentShortcutAction in c.availableShortcutActions <==> ActionOf(c.command.actionAndArgs) != OtherAction
  {
  }

  // ------------------------------------------------------ the page

  /** The two sub-pages of the actions page. */
  datatype ActionsSubPage = Base | Edit

  /**
   * How the page handles a binding's request: it applies the changes, finds
   * that the new keys are bound elsewhere and asks the user first, or reads
   * the modifiers of absent keys and fails.
   */
  datatype ModifyOutcome = Applied | ConflictFound | NullKeysRead

  /**
   * The entries that stay in the list when sender enters edit mode: sender
   * itself and every entry that is not newly added, in their order. With no
   * sender, just the entries that are not newly added.
   */
  function Survivors(s: seq<KeyBindingViewModel>, sender: KeyBindingViewModel?): (r: seq<KeyBindingViewModel>)
    reads s
  {
    if s == [] then []
    else (if s[0] == sender || !s[0].isNewlyAdded then [s[0]] else []) + Survivors(s[1..], sender)
  }

  /** The newly-added flags of a list of bindings, taken as values. */
  function NewlyAddedFlags(s: seq<KeyBindingViewModel>): (r: seq<bool>)
    reads s
    ensures |r| == |s| && forall j :: 0 <= j < |s| ==> r[j] == s[j].isNewlyAdded
  {
    if s == [] then [] else [s[0].isNewlyAdded] + NewlyAddedFlags(s[1..])
  }

  /** The edit modes of a list of bindings, taken as values. */
  function EditModes(s: seq<KeyBindingViewModel>): (r: seq<bool>)
    reads s
    ensures |r| == |s| && forall j :: 0 <= j < |s| ==> r[j] == s[j].isInEditMode
  {
    if s == [] then [] else [s[0].isInEditMode] + EditModes(s[1..])
  }

  /**
   * How far the walk over s0 has come, against snapshots of the flags and
   * edit modes taken before it: past index i every binding that is neither
   * sender nor newly added has left edit mode, and sender and the newly
   * added bindings keep their modes.
   */
  ghost predicate Walked(s0: seq<KeyBindingViewModel>, i: int, news: seq<bool>, modes0: seq<bool>,
                         sender: KeyBindingViewModel)
    requires |news| == |s0| == |modes0|
    reads s0
  {
    (forall j :: 0 <= j < |s0| ==> s0[j].isNewlyAdded == news[j]) &&
    (forall j :: 0 <= j < |s0| && i < j && s0[j] != sender && !news[j] ==> !s0[j].isInEditMode) &&
    (forall j :: 0 <= j < |s0| && (s0[j] == sender || news[j]) ==> s0[j].isInEditMode == modes0[j])
  }

  /**
   * Survivors over a snapshot of the newly-added flags: the same filter, but
   * a value that no later change to the bindings can affect.
   */
  function SurvivorsBy(s: seq<KeyBindingViewModel>, news: seq<bool>, sender: KeyBindingViewModel?): seq<KeyBindingViewModel>
    requires |news| == |s|
  {
    if s == [] then []
    else (if s[0] == sender || !news[0] then [s[0]] else []) + SurvivorsBy(s[1..], news[1..], sender)
  }

  /** Filtering by the snapshot of the flags gives the survivors. */
  lemma {:induction false} SurvivorsBySnapshot(s: seq<KeyBindingViewModel>, sender: KeyBindingViewModel?)
    ensures SurvivorsBy(s, NewlyAddedFlags(s), sender) == Survivors(s, sender)
    decreases |s|
  {
    if s != [] {
      assert NewlyAddedFlags(s)[1..] == NewlyAddedFlags(s[1..]);
      SurvivorsBySnapshot(s[1..], sender);
    }
  }

  /** The survivors are exactly the entries that are sender or not newly added. */
  lemma {:induction false} SurvivorsMembers(s: seq<KeyBindingViewModel>, sender: KeyBindingViewModel?)
    ensures forall k :: k in Survivors(s, sender) ==> k in s && (k == sender || !k.isNewlyAdded)
    ensures forall k :: k in s && (k == sender || !k.isNewlyAdded) ==> k in Survivors(s, sender)
    decreases |s|
  {
    if s != [] {
      SurvivorsMembers(s[1..], sender);
      assert s == [s[0]] + s[1..];
    }
  }

  /** Filtering a concatenation filters each part: the survivors keep their relative order. */
  lemma {:induction false} SurvivorsAppend(a: seq<KeyBindingViewModel>, b: seq<KeyBindingViewModel>, sender: KeyBindingViewModel?)
    ensures Survivors(a + b, sender) == Survivors(a, sender) + Survivors(b, sender)
    decreases |a|
  {
    if a == [] {
      assert a + b == b;
    } else {
      assert (a + b)[1..] == a[1..] + b;
      SurvivorsAppend(a[1..], b, sender);
    }
  }

  /** Whether a binding is bound to keys that match the query on modifiers and virtual key. */
  predicate BoundTo(k: KeyBindingViewModel, keys: KeyChord)
    reads k
  {
    k.currentKeys.Some? && SameKeys(keys, k.currentKeys.value)
  }

  class ActionsViewModel {
    var keyBindingList: seq<KeyBindingViewModel>
    var commandList: seq<CommandViewModel>
    var currentCommand: CommandViewModel?
    var currentPage: ActionsSubPage
    var availableActions: seq<string>
    var automationPeerAttached: bool

    /** The page over bindings and commands already built from the settings. */
    constructor (bindings: seq<KeyBindingViewModel>, commands: seq<CommandViewModel>, actions: seq<string>)
      ensures keyBindingList == bindings && commandList == commands && availableActions == actions
      ensures currentCommand == null && currentPage == Base && !automationPeerAttached
    {
      keyBindingList, commandList, availableActions := bindings, commands, actions;
      currentCommand, currentPage, automationPeerAttached := null, Base, false;
    }

    /**
     * The index of the first binding bound to keys matching the query on
     * modifiers and virtual key; None when there is none.
     */
    method GetContainerIndexByKeyChord(keys: KeyChord) returns (r: Option<nat>)
      ensures r.None? <==> forall j :: 0 <= j < |keyBindingList| ==> !BoundTo(keyBindingList[j], keys)
      ensures r.Some? ==> r.value < |keyBindingList| && BoundTo(keyBindingList[r.value], keys)
      ensures r.Some? ==> forall j :: 0 <= j < r.value ==> !BoundTo(keyBindingList[j], keys)
    {
      var i := 0;
      while i < |keyBindingList|
        invariant 0 <= i <= |keyBindingList|
        invariant forall j :: 0 <= j < i ==> !BoundTo(keyBindingList[j], keys)
      {
        var other := keyBindingList[i].currentKeys;
        if other.Some? && keys.modifiers == other.value.modifiers && keys.vkey == other.value.vkey {
          return Some(i);
        }
        i := i + 1;
      }
      return None;
    }

    /**
     * What the page does when sender's edit mode changes. When sender has
     * entered edit mode, a walk from the back of the list removes every other
     * newly added binding and takes every other binding out of edit mode; the
     * survivors keep their order. When sender has left edit mode nothing
     * changes. No binding changes anything but its edit mode.
     */
    method KeyBindingEditModeChanged(sender: KeyBindingViewModel)
      modifies this`keyBindingList, keyBindingList`isInEditMode
      ensures old(sender.isInEditMode) ==> keyBindingList == old(Survivors(keyBindingList, sender))
      ensures !old(sender.isInEditMode) ==> keyBindingList == old(keyBindingList)
      ensures old(sender.isInEditMode) ==> forall k :: k in keyBindingList && k != sender ==> !k.isInEditMode
      ensures forall k :: k in old(keyBindingList) ==> k.State() == old(k.State()).(isInEditMode := k.isInEditMode)
      ensures forall k :: k in old(keyBindingList) && (k == sender || k !in keyBindingList) ==>
        k.isInEditMode == old(k.isInEditMode)
    {
      if sender.isInEditMode {
        ghost var s0 := keyBindingList;
        SurvivorsMembers(s0, sender);
        PurgeOthers(sender);
        forall k | k in keyBindingList && k != sender
          ensures !k.isInEditMode
        {
          var j :| 0 <= j < |s0| && s0[j] == k;
        }
        forall k | k in s0 && (k == sender || k !in keyBindingList)
          ensures k.isInEditMode == old(k.isInEditMode)
        {
          var j :| 0 <= j < |s0| && s0[j] == k;
        }
      }
    }

    /**
     * The walk from the back of the list: the binding equal to sender is kept,
     * a newly added one is removed, and any other leaves edit mode.
     */
    method PurgeOthers(sender: KeyBindingViewModel)
      modifies this`keyBindingList, keyBindingList`isInEditMode
      ensures keyBindingList == old(Survivors(keyBindingList, sender))
      ensures forall j :: (0 <= j < |old(keyBindingList)| && old(keyBindingList)[j] != sender &&
                           !old(keyBindingList)[j].isNewlyAdded) ==> !old(keyBindingList)[j].isInEditMode
      ensures forall j :: (0 <= j < |old(keyBindingList)| &&
                           (old(keyBindingList)[j] == sender || old(keyBindingList)[j].isNewlyAdded)) ==>
        old(keyBindingList)[j].isInEditMode == old(keyBindingList[j].isInEditMode)
    {
      ghost var s0 := keyBindingList;
      ghost var news, modes0 := NewlyAddedFlags(s0), EditModes(s0);
      SurvivorsBySnapshot(s0, sender);
      var i: int := |keyBindingList| - 1;
      while i >= 0
        invariant -1 <= i < |s0|
        invariant keyBindingList == s0[..i + 1] + SurvivorsBy(s0[i + 1..], news[i + 1..], sender)
        invariant Walked(s0, i, news, modes0, sender)
        decreases i
      {
        ghost var kept := if s0[i] == sender || !news[i] then [s0[i]] else [];
        ghost var rest := SurvivorsBy(s0[i + 1..], news[i + 1..], sender);
        assert s0[i..][1..] == s0[i + 1..] && news[i..][1..] == news[i + 1..];
        assert SurvivorsBy(s0[i..], news[i..], sender) == kept + rest;
        assert keyBindingList[i] == s0[i] && keyBindingList[..i] == s0[..i] && keyBindingList[i + 1..] == rest;
        PurgeAt(i, keyBindingList[i], sender, s0, news, modes0);
        i := i - 1;
      }
      assert s0[0..] == s0 && news[0..] == news;
    }

    /**
     * One step of the walk, at index i: the binding there is kept when it is
     * sender, removed when it is newly added, and otherwise kept and taken
     * out of edit mode.
     */
    method PurgeAt(i: nat, kbd: KeyBindingViewModel, sender: KeyBindingViewModel,
                   ghost s0: seq<KeyBindingViewModel>, ghost news: seq<bool>, ghost modes0: seq<bool>)
      requires i < |s0| == |news| == |modes0| && s0[i] == kbd
      requires i < |keyBindingList| && keyBindingList[i] == kbd
      requires Walked(s0, i, news, modes0, sender)
      modifies this`keyBindingList, kbd`isInEditMode
      ensures keyBindingList ==
        old(keyBindingList[..i]) + ((if kbd == sender || !news[i] then [kbd] else []) + old(keyBindingList[i + 1..]))
      ensures Walked(s0, i - 1, news, modes0, sender)
    {
      if kbd == sender {
        assert keyBindingList == keyBindingList[..i] + [kbd] + keyBindingList[i + 1..];
      } else if kbd.isNewlyAdded {
        keyBindingList := RemoveAt(keyBindingList, i);
      } else {
        assert keyBindingList == keyBindingList[..i] + [kbd] + keyBindingList[i + 1..];
        kbd.isInEditMode := false;
      }
    }

    /**
     * Removes sender, the first binding equal to it, from the list. When the
     * list is not empty afterwards, the index to focus is the removed one,
     * clamped to the new last index.
     */
    method DeleteKeyBinding(sender: KeyBindingViewModel) returns (focus: Option<nat>)
      modifies this`keyBindingList
      ensures keyBindingList == RemoveFirst(old(keyBindingList), sender)
      ensures focus.Some? <==> sender in old(keyBindingList) && |keyBindingList| > 0
      ensures focus.Some? ==> focus.value < |keyBindingList|
      ensures focus.Some? ==>
        var index := IndexOf(old(keyBindingList), sender).value;
        focus.value == if index < |keyBindingList| then index else |keyBindingList| - 1
    {
      focus := None;
      var idx := IndexOf(keyBindingList, sender);
      if idx.Some? {
        var index := idx.value;
        keyBindingList := RemoveAt(keyBindingList, index);
        if |keyBindingList| != 0 {
          focus := Some(if index < |keyBindingList| - 1 then index else |keyBindingList| - 1);
        }
      }
    }

    /** Removes the first binding equal to sender, scanning from the front; nothing when it is absent. */
    method DeleteNewlyAddedKeyBinding(sender: KeyBindingViewModel)
      modifies this`keyBindingList
      ensures keyBindingList == RemoveFirst(old(keyBindingList), sender)
    {
      var i := 0;
      while i < |keyBindingList|
        invariant 0 <= i <= |keyBindingList|
        invariant keyBindingList == old(keyBindingList)
        invariant sender !in keyBindingList[..i]
      {
        if keyBindingList[i] == sender {
          keyBindingList := RemoveAt(keyBindingList, i);
          return;
        }
        assert keyBindingList[..i + 1] == keyBindingList[..i] + [keyBindingList[i]];
        i := i + 1;
      }
      assert keyBindingList[..i] == keyBindingList;
    }

    /**
     * Adds a fresh binding at the front of the list: keyless, for the first
     * available action, in edit mode and newly added. Putting it in edit mode
     * first lets the edit-mode handler clear out every older newly added
     * binding and take the others out of edit mode. With no available action
     * there is no first one to take: that read fails before anything changes,
     * and the result is null.
     */
    method AddNewKeybinding() returns (added: KeyBindingViewModel?)
      modifies this`keyBindingList, keyBindingList
      ensures added == null <==> availableActions == []
      ensures added == null ==>
        keyBindingList == old(keyBindingList) && forall k :: k in keyBindingList ==> k.State() == old(k.State())
      ensures added != null ==> fresh(added)
      ensures added != null ==> |keyBindingList| > 0 && keyBindingList[0] == added
      ensures added != null ==> keyBindingList[1..] == old(Survivors(keyBindingList, null))
      ensures added != null ==>
        added.State() == KeyBindingState(None, availableActions[0], None, availableActions[0],
                                         true, true, false, false, false, automationPeerAttached)
      ensures added != null ==> forall k :: k in keyBindingList[1..] ==> !k.isInEditMode
      ensures forall k :: k in old(keyBindingList) ==> k.State() == old(k.State()).(isInEditMode := k.isInEditMode)
    {
      if availableActions == [] {
        return null;
      }
      ghost var s0 := keyBindingList;
      ghost var survivors := Survivors(s0, null);
      SurvivorsMembers(s0, null);
      added := NewKeyBindingInEditMode();
      assert Survivors(s0, null) == survivors;
      SurvivorsWithoutSender(s0, added);
      KeyBindingEditModeChanged(added);
      assert keyBindingList == survivors;
      assert forall k :: k in keyBindingList ==> k in s0 && k != added && !k.isInEditMode;
      added.isNewlyAdded := true;
      keyBindingList := InsertAt(keyBindingList, 0, added);
      assert keyBindingList[1..] == survivors;
    }

    /**
     * Accepting a newly added binding without keys applies its action and
     * leaves a keyless binding that is no longer newly added; accepting that
     * binding's changes again reads the modifiers of its absent keys and fails.
     */
    static method KeylessBindingScenario(actions: seq<string>) returns (first: ModifyOutcome, second: ModifyOutcome)
      requires |actions| > 0 && actions[0] != []
      ensures first == Applied && second == NullKeysRead
    {
      var page := new ActionsViewModel([], [], actions);
      var k := page.AddNewKeybinding();
      first := page.ModifyKeyBinding(k, k.AttemptAcceptChanges(), false);
      k.ToggleEditMode();
      second := page.ModifyKeyBinding(k, k.AttemptAcceptChanges(), false);
    }

    /** A fresh keyless binding for the first available action, told about the screen reader and put in edit mode. */
    method NewKeyBindingInEditMode() returns (k: KeyBindingViewModel)
      requires |availableActions| > 0
      ensures fresh(k)
      ensures k.State() == KeyBindingState(None, availableActions[0], None, availableActions[0],
                                           true, false, false, false, false, automationPeerAttached)
    {
      k := new KeyBindingViewModel.FromAvailableActions(availableActions);
      k.isAutomationPeerAttached := automationPeerAttached;
      k.isInEditMode := true;
    }

    /**
     * The no-conflict path of accepting a binding's changes: when the keys
     * change they become the binding's keys, when the action changes it becomes
     * the binding's action and the binding is no longer newly added, and then
     * edit mode is toggled. When the new keys are already bound elsewhere the
     * page asks the user first and nothing changes yet. The old and new keys are
     * read unless the request is a new action; when one of them is absent the
     * read fails before anything changes.
     */
    method ModifyKeyBinding(sender: KeyBindingViewModel, args: ModifyKeyBindingArgs, newKeysBound: bool)
      returns (outcome: ModifyOutcome)
      modifies sender
      ensures outcome == NullKeysRead <==> !KeysReadable(args)
      ensures outcome == ConflictFound <==> KeysReadable(args) && KeysChange(args) && newKeysBound
      ensures outcome != Applied ==> sender.State() == old(sender.State())
      ensures outcome == Applied ==>
        var changed := old(sender.State()).(
          currentKeys := if KeysChange(args) then args.newKeys else old(sender.currentKeys),
          currentAction := if args.oldActionName != args.newActionName then args.newActionName else old(sender.currentAction),
          isNewlyAdded := if args.oldActionName != args.newActionName then false else old(sender.isNewlyAdded),
          isInEditMode := !old(sender.isInEditMode));
        sender.State() == if sender.isInEditMode
                          then changed.(proposedKeys := changed.currentKeys, proposedAction := changed.currentAction)
                          else changed
    {
      if !KeysReadable(args) {
        return NullKeysRead;
      }
      if KeysChange(args) && newKeysBound {
        return ConflictFound;
      }
      outcome := Applied;
      if KeysChange(args) {
        sender.currentKeys := args.newKeys;
      }
      if args.oldActionName != args.newActionName {
        sender.currentAction := args.newActionName;
        sender.isNewlyAdded := false;
      }
      sender.ToggleEditMode();
    }

    /** Announces a screen reader to every binding, so that each shows its edit button unless it is being edited. */
    method OnAutomationPeerAttached()
      modifies this`automationPeerAttached, keyBindingList
      ensures automationPeerAttached
      ensures forall k :: k in keyBindingList ==> k.isAutomationPeerAttached
      ensures forall k :: k in keyBindingList ==> (k.ShowEditButton() <==> !k.isInEditMode)
      ensures forall k :: k in keyBindingList ==> k.State() == old(k.State()).(isAutomationPeerAttached := true)
    {
      automationPeerAttached := true;
      for i := 0 to |keyBindingList|
        invariant automationPeerAttached
        invariant forall j :: 0 <= j < i ==> keyBindingList[j].isAutomationPeerAttached
        invariant forall k :: k in keyBindingList ==>
          k.State() == old(k.State()).(isAutomationPeerAttached := k.isAutomationPeerAttached)
        invariant forall k :: k in keyBindingList && k !in keyBindingList[..i] ==>
          k.isAutomationPeerAttached == old(k.isAutomationPeerAttached)
      {
        keyBindingList[i].isAutomationPeerAttached := automationPeerAttached;
        assert keyBindingList[..i + 1] == keyBindingList[..i] + [keyBindingList[i]];
      }
      forall k | k in keyBindingList
        ensures k.isAutomationPeerAttached
      {
        var j :| 0 <= j < |keyBindingList| && keyBindingList[j] == k;
      }
    }

    /**
     * Takes the action names, binding list and command list rebuilt from new
     * settings, replacing the old ones (bindings still being added are gone),
     * and reselects, by name, the command that was current: the first rebuilt
     * command with the old current command's name, or none when there was no
     * current command, its name was empty, or no rebuilt command has that name.
     */
    method UpdateSettings(actions: seq<string>, bindings: seq<KeyBindingViewModel>, rebuilt: seq<CommandViewModel>)
      modifies this`availableActions, this`keyBindingList, this`commandList, this`currentCommand
      ensures availableActions == actions && keyBindingList == bindings && commandList == rebuilt
      ensures old(currentCommand) == null || old(currentCommand.command.name) == [] ==> currentCommand == null
      ensures old(currentCommand) != null && old(currentCommand.command.name) != [] ==>
        (currentCommand == null <==>
         forall j :: 0 <= j < |rebuilt| ==> rebuilt[j].command.name != old(currentCommand.command.name))
      ensures currentCommand != null ==>
        exists i :: 0 <= i < |rebuilt| && rebuilt[i] == currentCommand &&
                    currentCommand.command.name == old(currentCommand.command.name) &&
                    forall j :: 0 <= j < i ==> rebuilt[j].command.name != currentCommand.command.name
    {
      var currentCommandName := if currentCommand != null then currentCommand.command.name else [];
      availableActions, keyBindingList, commandList := actions, bindings, rebuilt;
      if currentCommandName != [] {
        var i := 0;
        while i < |commandList|
          invariant 0 <= i <= |commandList|
          invariant forall j :: 0 <= j < i ==> commandList[j].command.name != currentCommandName
        {
          if commandList[i].command.name == currentCommandName {
            currentCommand := commandList[i];
            return;
          }
          i := i + 1;
        }
        currentCommand := null;
      } else {
        currentCommand := null;
      }
    }

    /** A command's edit button opens the edit sub-page on that command. */
    method CommandEditRequested(sender: CommandViewModel)
      modifies this`currentCommand, this`currentPage
      ensures currentCommand == sender && currentPage == Edit
    {
      currentCommand := sender;
      currentPage := Edit;
    }

    /** Deleting a command clears the current command and returns to the base sub-page. */
    method CommandDeleteRequested(sender: CommandViewModel)
      modifies this`currentCommand, this`currentPage
      ensures currentCommand == null && currentPage == Base
    {
      currentCommand := null;
      currentPage := Base;
    }
  }

  /** A sender that is not in the list keeps exactly the entries that are not newly added. */
  lemma {:induction false} SurvivorsWithoutSender(s: seq<KeyBindingViewModel>, sender: KeyBindingViewModel)
    requires sender !in s
    ensures Survivors(s, sender) == Survivors(s, null)
    decreases |s|
  {
    if s != [] {
      SurvivorsWithoutSender(s[1..], sender);
    }
  }
}
