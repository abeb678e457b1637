/** The keyboard bookkeeping of schling-common/src/key.rs: the set of keys
    held down, kept as a strictly sorted vector searched by bisection; the
    hotkey table of a key context, a multimap from key name to shortcuts; and
    the registrar that answers only connected handlers. */
module Keys {
  import opened Outcomes
  import opened Texts

  // ---------------------------------------------------------------------------
  // `str`'s `Ord`: lexicographic by character (UTF-8 byte order and code-point
  // order agree).

  predicate Below(a: string, b: string)
    decreases |a|
  {
    if a == [] then b != []
    else if b == [] then false
    else if a[0] != b[0] then a[0] < b[0]
    else Below(a[1..], b[1..])
  }

  function Compare(a: string, b: string): (o: Ordering)
    ensures o == Less <==> Below(a, b)
    ensures o == Equal <==> a == b
    ensures o == Greater <==> Below(b, a)
  {
    BelowTotal(a, b);
    BelowIrreflexive(a);
    BelowAsymmetric(a, b);
    if Below(a, b) then Less else if a == b then Equal else Greater
  }

  lemma {:induction false} BelowIrreflexive(a: string)
    ensures !Below(a, a)
  {
    if a != [] {
      BelowIrreflexive(a[1..]);
    }
  }

  lemma {:induction false} BelowAsymmetric(a: string, b: string)
    ensures !(Below(a, b) && Below(b, a))
  {
    if a != [] && b != [] && a[0] == b[0] {
      BelowAsymmetric(a[1..], b[1..]);
    }
  }

  lemma {:induction false} BelowTotal(a: string, b: string)
    ensures a == b || Below(a, b) || Below(b, a)
  {
    if a != [] && b != [] && a[0] == b[0] {
      BelowTotal(a[1..], b[1..]);
      if a[1..] == b[1..] {
        assert a == [a[0]] + a[1..] && b == [b[0]] + b[1..];
      }
    }
  }

  lemma {:induction false} BelowTransitive(a: string, b: string, c: string)
    requires Below(a, b) && Below(b, c)
    ensures Below(a, c)
  {
    if a != [] && a[0] == b[0] && b[0] == c[0] {
      BelowTransitive(a[1..], b[1..], c[1..]);
    }
  }

  /** Every earlier key is below every later one: sorted, no duplicates. */
  predicate StrictlySorted(s: seq<string>) {
    forall i, j | 0 <= i < j < |s| :: Below(s[i], s[j])
  }

  // ---------------------------------------------------------------------------
  // `KeyStack`.

  class KeyStack {
    var pressed: seq<string>

    ghost predicate Valid()
      reads this
    {
      StrictlySorted(pressed)
    }

    /** `KeyStack::default()`: nothing pressed. */
    constructor Default()
      ensures pressed == [] && Valid()
    {
      pressed := [];
    }

    /** `find`: `binary_search_by` with `str::cmp`. `Ok(i)` names the key's
        position; `Err(i)` is where it would be inserted to keep the order. */
    method Find(key: string) returns (r: Result<nat, nat>)
      requires Valid()
      ensures r.Ok? ==> r.value < |pressed| && pressed[r.value] == key
      ensures r.Err? ==> r.error <= |pressed| && key !in pressed
      ensures r.Err? ==> (forall i | 0 <= i < r.error :: Below(pressed[i], key)) &&
                         (forall i | r.error <= i < |pressed| :: Below(key, pressed[i]))
    {
      var lo, hi := 0, |pressed|;
      while lo < hi
        invariant 0 <= lo <= hi <= |pressed|
        invariant forall i | 0 <= i < lo :: Below(pressed[i], key)
        invariant forall i | hi <= i < |pressed| :: Below(key, pressed[i])
        decreases hi - lo
      {
        var mid := lo + (hi - lo) / 2;
        match Compare(pressed[mid], key) {
          case Less =>
            forall i | 0 <= i <= mid
              ensures Below(pressed[i], key)
            {
              if i < mid {
                BelowTransitive(pressed[i], pressed[mid], key);
              }
            }
            lo := mid + 1;
          case Greater =>
            forall i | mid <= i < |pressed|
              ensures Below(key, pressed[i])
            {
              if i > mid {
                BelowTransitive(key, pressed[mid], pressed[i]);
              }
            }
            hi := mid;
          case Equal =>
            return Ok(mid);
        }
      }
      forall i | 0 <= i < |pressed|
        ensures pressed[i] != key
      {
        BelowIrreflexive(key);
      }
      return Err(lo);
    }

    /** `key_down`: a key not yet held is inserted at its sorted place, whose
        index is returned; a key already held changes nothing. */
    method KeyDown(key: string) returns (r: Option<nat>)
      requires Valid()
      modifies this
      ensures Valid()
      ensures key in old(pressed) ==> r == None && pressed == old(pressed)
      ensures key !in old(pressed) ==>
                r.Some? && r.value <= |old(pressed)| &&
                pressed == old(pressed)[..r.value] + [key] + old(pressed)[r.value..]
    {
      var found := Find(key);
      match found {
        case Ok(_) =>
          r := None;
        case Err(pos) =>
          ghost var before := pressed;
          pressed := pressed[..pos] + [key] + pressed[pos..];
          forall i, j | 0 <= i < j < |pressed|
            ensures Below(pressed[i], pressed[j])
          {
            if j < pos || i > pos {
              var i', j' := if i > pos then i - 1 else i, if j > pos then j - 1 else j;
              assert pressed[i] == before[i'] && pressed[j] == before[j'];
            }
          }
          r := Some(pos);
      }
    }

    /** `key_up`: a held key is removed and its old index returned; any other
        key changes nothing. */
    method KeyUp(key: string) returns (r: Option<nat>)
      requires Valid()
      modifies this
      ensures Valid()
      ensures key !in old(pressed) ==> r == None && pressed == old(pressed)
      ensures key in old(pressed) ==>
                r.Some? && r.value < |old(pressed)| && old(pressed)[r.value] == key &&
                pressed == old(pressed)[..r.value] + old(pressed)[r.value + 1..]
      ensures key !in pressed
    {
      var found := Find(key);
      match found {
        case Ok(pos) =>
          ghost var before := pressed;
          pressed := pressed[..pos] + pressed[pos + 1..];
          forall i, j | 0 <= i < j < |pressed|
            ensures Below(pressed[i], pressed[j])
          {
            var i', j' := if i >= pos then i + 1 else i, if j >= pos then j + 1 else j;
            assert pressed[i] == before[i'] && pressed[j] == before[j'];
          }
          forall i | 0 <= i < |pressed|
            ensures pressed[i] != key
          {
            var i' := if i >= pos then i + 1 else i;
            assert pressed[i] == before[i'];
            BelowIrreflexive(key);
          }
          r := Some(pos);
        case Err(_) =>
          r := None;
      }
    }

    /** `clear`: nothing pressed. */
    method Clear()
      modifies this
      ensures pressed == [] && Valid()
    {
      pressed := [];
    }

    /** `Display`: the held keys in sorted order, separated by single spaces. */
    function Display(): string
      reads this
    {
      Join(pressed, " ")
    }
  }

  /** When no key name is empty or holds whitespace, the display lists exactly
      the held keys, in sorted order. */
  lemma DisplayListsKeys(k: KeyStack)
    requires forall i | 0 <= i < |k.pressed| :: IsWord(k.pressed[i])
    ensures Words(k.Display()) == k.pressed
  {
    WordsOfJoin(k.pressed);
  }

  /** The space key's name is a blank, so once it is held the display no longer
      shows which keys are down: " " held alone displays as nothing. */
  lemma SpaceKeyHidden()
    ensures Words(Join([" "], " ")) == []
  {
    assert Join([" "], " ") == " ";
    assert " "[1..] == [];
  }

  // ---------------------------------------------------------------------------
  // `KeyContext`: the hotkey multimap and the key stack.

  /** A shortcut: the key it is bound to and the identities of its two
      callbacks (`Invoke` and `Callback` compare by reference identity). */
  datatype Shortcut = Shortcut(pattern: string, canExecute: nat, execute: nat)

  /** The action alphabet. Whether focus moved to an element inside the
      context is decided by walking the DOM; it is given as a flag. */
  datatype Action =
    | Register(shortcut: Shortcut)
    | Unregister(shortcut: Shortcut)
    | KeyDown(key: string)
    | KeyUp(key: string)
    | Blur(focusInside: bool)

  function ShortcutsFor(hotkeys: map<string, seq<Shortcut>>, pattern: string): seq<Shortcut> {
    if pattern in hotkeys then hotkeys[pattern] else []
  }

  /** `MultiMap::insert`: appended to the key's vector, created if missing. */
  function Registered(hotkeys: map<string, seq<Shortcut>>, s: Shortcut): (r: map<string, seq<Shortcut>>)
    ensures ShortcutsFor(r, s.pattern) == ShortcutsFor(hotkeys, s.pattern) + [s]
    ensures forall p | p != s.pattern :: ShortcutsFor(r, p) == ShortcutsFor(hotkeys, p)
  {
    hotkeys[s.pattern := ShortcutsFor(hotkeys, s.pattern) + [s]]
  }

  /** `position`: the index of the first shortcut equal to `x`. */
  function Position(xs: seq<Shortcut>, x: Shortcut): (i: nat)
    requires x in xs
    ensures i < |xs| && xs[i] == x && x !in xs[..i]
  {
    if xs[0] == x then 0 else Position(xs[1..], x) + 1
  }

  /** Removing the first element equal to `x`, if any: the rest keep their
      order. */
  function RemoveFirst(xs: seq<Shortcut>, x: Shortcut): (r: seq<Shortcut>)
    ensures x !in xs ==> r == xs
    ensures x in xs ==> r == xs[..Position(xs, x)] + xs[Position(xs, x) + 1..]
  {
    if xs == [] then []
    else if xs[0] == x then
      assert xs == [x] + xs[1..];
      xs[1..]
    else
      var rest := RemoveFirst(xs[1..], x);
      if x in xs[1..] then
        RemovedBehindHead(xs, x, rest);
        [xs[0]] + rest
      else
        assert xs == [xs[0]] + xs[1..];
        [xs[0]] + rest
  }

  /** The first `x` behind a different head, removed from the tail, is
      removed from the whole list. */
  lemma RemovedBehindHead(xs: seq<Shortcut>, x: Shortcut, rest: seq<Shortcut>)
    requires xs != [] && xs[0] != x && x in xs[1..]
    requires rest == xs[1..][..Position(xs[1..], x)] + xs[1..][Position(xs[1..], x) + 1..]
    ensures x in xs && [xs[0]] + rest == xs[..Position(xs, x)] + xs[Position(xs, x) + 1..]
  {
    var i := Position(xs[1..], x);
    assert Position(xs, x) == i + 1;
    assert xs[..i + 1] == [xs[0]] + xs[1..][..i];
    assert xs[i + 2..] == xs[1..][i + 1..];
  }

  /** `get_vec_mut` then `position` then `remove`: only the first equal
      shortcut under its pattern goes; otherwise nothing changes. */
  function Unregistered(hotkeys: map<string, seq<Shortcut>>, s: Shortcut): (r: map<string, seq<Shortcut>>)
    ensures ShortcutsFor(r, s.pattern) == RemoveFirst(ShortcutsFor(hotkeys, s.pattern), s)
    ensures forall p | p != s.pattern :: ShortcutsFor(r, p) == ShortcutsFor(hotkeys, p)
    ensures s !in ShortcutsFor(hotkeys, s.pattern) ==> r == hotkeys
  {
    if s.pattern in hotkeys then hotkeys[s.pattern := RemoveFirst(hotkeys[s.pattern], s)] else hotkeys
  }

  /** `iter().find(can_execute)`: the first shortcut whose guard holds. */
  function FirstExecutable(list: seq<Shortcut>, canExecute: Shortcut -> bool): (r: Option<Shortcut>)
    ensures r.None? <==> forall i | 0 <= i < |list| :: !canExecute(list[i])
    ensures r.Some? ==> exists i | 0 <= i < |list| ::
              list[i] == r.value && canExecute(list[i]) &&
              forall j | 0 <= j < i :: !canExecute(list[j])
  {
    if list == [] then None
    else if canExecute(list[0]) then Some(list[0])
    else
      var r := FirstExecutable(list[1..], canExecute);
      FirstExecutableShift(list, canExecute, r);
      r
  }

  /** A hit in the tail of a list whose head is refused is a hit in the list. */
  lemma FirstExecutableShift(list: seq<Shortcut>, canExecute: Shortcut -> bool, r: Option<Shortcut>)
    requires list != [] && !canExecute(list[0])
    requires r.Some? ==> exists i | 0 <= i < |list[1..]| ::
               list[1..][i] == r.value && canExecute(list[1..][i]) &&
               forall j | 0 <= j < i :: !canExecute(list[1..][j])
    ensures r.Some? ==> exists i | 0 <= i < |list| ::
              list[i] == r.value && canExecute(list[i]) &&
              forall j | 0 <= j < i :: !canExecute(list[j])
  {
    if r.Some? {
      var i :| 0 <= i < |list[1..]| && list[1..][i] == r.value && canExecute(list[1..][i]) &&
               forall j | 0 <= j < i :: !canExecute(list[1..][j]);
      forall j | 0 <= j < i + 1
        ensures !canExecute(list[j])
      {
        if j > 0 {
          assert list[j] == list[1..][j - 1];
        }
      }
      assert list[i + 1] == r.value;
    }
  }

  class KeyContext {
    var hotkeys: map<string, seq<Shortcut>>
    const keys: KeyStack

    ghost predicate Valid()
      reads this, keys
    {
      keys.Valid()
    }

    /** `create`: no hotkeys, nothing pressed. */
    constructor Create()
      ensures Valid() && hotkeys == map[] && keys.pressed == [] && fresh(keys)
    {
      hotkeys := map[];
      keys := new KeyStack.Default();
    }

    /** `update`: every action asks for no re-render. A key press is recorded
        and then runs at most one shortcut, the first registered for that key
        whose guard accepts the event; `executed` names it. */
    method Update(action: Action, canExecute: Shortcut -> bool) returns (rerender: bool, executed: Option<Shortcut>)
      requires Valid()
      modifies this, keys
      ensures Valid() && !rerender
      ensures !action.KeyDown? ==> executed == None
      ensures action.Register? ==>
                hotkeys == Registered(old(hotkeys), action.shortcut) && keys.pressed == old(keys.pressed)
      ensures action.Unregister? ==>
                hotkeys == Unregistered(old(hotkeys), action.shortcut) && keys.pressed == old(keys.pressed)
      ensures action.KeyDown? ==>
                hotkeys == old(hotkeys) && action.key in keys.pressed &&
                (action.key in old(keys.pressed) ==> keys.pressed == old(keys.pressed)) &&
                (action.key !in old(keys.pressed) ==>
                   multiset(keys.pressed) == multiset(old(keys.pressed)) + multiset{action.key}) &&
                executed == FirstExecutable(ShortcutsFor(hotkeys, action.key), canExecute)
      ensures action.KeyUp? ==>
                hotkeys == old(hotkeys) && action.key !in keys.pressed &&
                (action.key !in old(keys.pressed) ==> keys.pressed == old(keys.pressed)) &&
                multiset(keys.pressed) == multiset(old(keys.pressed)) - multiset{action.key}
      ensures action.Blur? ==>
                hotkeys == old(hotkeys) &&
                keys.pressed == (if action.focusInside then old(keys.pressed) else [])
    {
      executed := None;
      match action {
        case Register(s) =>
          hotkeys := Registered(hotkeys, s);
        case Unregister(s) =>
          hotkeys := Unregistered(hotkeys, s);
        case KeyDown(key) =>
          ghost var before := keys.pressed;
          var at := keys.KeyDown(key);
          if at.Some? {
            assert before == before[..at.value] + before[at.value..];
          }
          executed := FirstExecutable(ShortcutsFor(hotkeys, key), canExecute);
        case KeyUp(key) =>
          ghost var before := keys.pressed;
          var at := keys.KeyUp(key);
          if at.Some? {
            assert before == before[..at.value] + [key] + before[at.value + 1..];
          }
        case Blur(focusInside) =>
          if !focusInside {
            keys.Clear();
          }
      }
      rerender := false;
    }
  }

  // ---------------------------------------------------------------------------
  // `KeyRegistrar`: the agent that relays shortcuts to connected handlers.

  class KeyRegistrar {
    var subs: set<nat>

    constructor Create()
      ensures subs == {}
    {
      subs := {};
    }

    /** `handle_input`: the message is sent back to the handler exactly when
        that handler is connected. */
    method HandleInput(msg: Shortcut, id: nat) returns (response: Option<(nat, Shortcut)>)
      ensures response.Some? <==> id in subs
      ensures response.Some? ==> response.value == (id, msg)
    {
      if id in subs {
        response := Some((id, msg));
      } else {
        response := None;
      }
    }

    method Connected(id: nat)
      modifies this
      ensures subs == old(subs) + {id}
    {
      subs := subs + {id};
    }

    method Disconnected(id: nat)
      modifies this
      ensures subs == old(subs) - {id}
    {
      subs := subs - {id};
    }
  }
}
