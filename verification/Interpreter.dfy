// The interpreter's registers, the method cache, and the sending of and returning from messages.
module Interpreters {
  import opened Words
  import opened Objects
  import opened Methods
  import opened Contexts

  const MESSAGE_SELECTOR_INDEX := 0
  const MESSAGE_ARGUMENTS_INDEX := 1
  const MESSAGE_SIZE := 2
  const CANNOT_RETURN: Word := 44
  const CACHE_ENTRIES := 256

  // The first of the four words that the cache has for a selector and a class.
  function CacheSlot(selector: Word, cls: Word): int {
    4 * And(And(selector, cls), 255)
  }

  lemma {:induction false} CacheSlotInside(selector: Word, cls: Word)
    ensures 0 <= CacheSlot(selector, cls) <= 4 * (CACHE_ENTRIES - 1) && CacheSlot(selector, cls) % 4 == 0
    ensures CacheSlot(selector, cls) == 4 * (And(selector, cls) % 256)
  {
    AndBelow(And(selector, cls), 255);
    LowByte(And(selector, cls));
  }

  lemma {:induction false} LowByte(n: nat)
    ensures And(n, 255) == n % 256
  {
    Powers();
    AndMask(8, n);
    AndSides(n, 255);
  }

  lemma {:induction false} AndSides(a: nat, b: nat)
    ensures And(a, b) == And(b, a)
  {
    if a != 0 && b != 0 {
      AndSides(a / 2, b / 2);
    }
  }

  // An entry is blank, or tells what the search finds.
  ghost predicate EntryRight(o: Heap, chains: map<int, seq<int>>, selector: Word, cls: Word, newMethod: Word,
                             primitive: Word) {
    (selector == NIL_POINTER && cls == NIL_POINTER && newMethod == NIL_POINTER && primitive == NIL_POINTER) ||
    (selector != NIL_POINTER && cls as int in chains &&
      FindFrom(o, chains[cls as int], selector) == Method(newMethod, primitive))
  }

  ghost predicate CacheRight(cache: seq<Word>, o: Heap, chains: map<int, seq<int>>) {
    |cache| == 4 * CACHE_ENTRIES &&
    forall k {:trigger cache[4 * k]} :: 0 <= k < CACHE_ENTRIES ==>
      EntryRight(o, chains, cache[4 * k], cache[4 * k + 1], cache[4 * k + 2], cache[4 * k + 3])
  }

  // What a search leaves in the registers.
  ghost predicate Sought(o: Heap, chain: seq<int>, selector: Word, ok: bool, selector': Word, newMethod: Word,
                         primitive: int) {
    match Resolve(o, chain, selector)
    case Understood(m, n) => ok && selector' == selector && newMethod == m && primitive == n
    case Instead(m, n) => ok && selector' == DOES_NOT_UNDERSTAND && newMethod == m && primitive == n
    case Unresolved => !ok
  }

  // The arguments on the stack have been packed, with the selector, in a message, which stands in their place.
  ghost predicate Packed(o: Heap, o': Heap, context: Word, stackPointer: int, argumentCount: nat, selector: Word,
                         arguments: Word, message: Word) {
    o'.Keys == o.Keys + {arguments, message} && o'[message] == [selector, arguments] &&
      |o'[arguments]| == argumentCount &&
    (forall i {:trigger o'[arguments][i]} :: 0 <= i < argumentCount ==>
      o'[arguments][i] == Field(o, context, stackPointer - argumentCount + 1 + i)) &&
    SizeOf(o', context) == SizeOf(o, context) &&
    (forall j {:trigger Field(o', context, j)} ::
       (Field(o', context, j) == if j == stackPointer - argumentCount + 1 then message
                                 else if stackPointer - argumentCount + 1 < j <= stackPointer then NIL_POINTER
                                 else Field(o, context, j))) &&
    forall p {:trigger o'[p]} {:trigger o[p]} :: p in o && p != context ==> o'[p] == o[p]
  }

  class Interpreter {
    const methodCache: array<Word>
    var objects: Heap
    // the class registers
    var messageSelector: Word
    var argumentCount: nat
    var newMethod: Word
    var primitiveIndex: int
    // the context registers
    var activeContext: Word
    var homeContext: Word
    var receiver: Word
    var currentMethod: Word
    var instructionPointer: int
    var stackPointer: int

    constructor (methodCache: array<Word>, objects: Heap, activeContext: Word)
      ensures this.methodCache == methodCache && this.objects == objects &&
        Machine() == Contexts.Machine(objects, Fetched(objects, activeContext))
    {
      this.methodCache := methodCache;
      this.objects := objects;
      this.messageSelector := NIL_POINTER;
      this.newMethod := NIL_POINTER;
      this.activeContext := activeContext;
      new;
      FetchContextRegisters();
    }

    function Machine(): Machine
      reads this
    {
      Contexts.Machine(objects,
        Registers(activeContext, homeContext, receiver, currentMethod, instructionPointer, stackPointer))
    }

    // Lookup

    method LookupMethodInDictionary(dictionary: Word) returns (found: bool)
      requires dictionary in objects && IsDictionary(objects[dictionary])
      modifies this`newMethod, this`primitiveIndex
      ensures match FindIn(objects, dictionary, messageSelector)
              case Method(m, n) => found && newMethod == m && primitiveIndex == n
              case Nothing => !found && newMethod == old(newMethod) && primitiveIndex == old(primitiveIndex)
      ensures found ==> Defined(objects[dictionary]) && primitiveIndex == PrimitiveIndexOf(objects, newMethod)
    {
      ghost var keys, d := objects[dictionary], 0;
      HomeInside(keys, messageSelector);
      var length := SizeOf(objects, dictionary);
      var mask := length - SELECTOR_START - 1;
      var index := And(mask, messageSelector / 2) + SELECTOR_START;
      var wrapAround := false;
      while true
        invariant 0 <= d < 2 * Capacity(keys) - Home(keys, messageSelector) && SELECTOR_START <= index < length
        invariant index == Home(keys, messageSelector) + d + SELECTOR_START - (if wrapAround then Capacity(keys) else 0)
        invariant PassedOver(keys, messageSelector, if d < Capacity(keys) then d else Capacity(keys))
        invariant newMethod == old(newMethod) && primitiveIndex == old(primitiveIndex)
        decreases 2 * Capacity(keys) - d
      {
        var nextSelector := Field(objects, dictionary, index);
        Looked(keys, messageSelector, d, index);
        if nextSelector == NIL_POINTER {
          ProbePasses(keys, messageSelector, d);
          return false;
        }
        if nextSelector == messageSelector {
          ProbePasses(keys, messageSelector, d);
          var methodArray := Field(objects, dictionary, METHOD_ARRAY_INDEX);
          newMethod := Field(objects, methodArray, index - SELECTOR_START);
          primitiveIndex := PrimitiveIndexOf(objects, newMethod);
          ghost var k := index - 2;
          assert keys[k + 2] == messageSelector && newMethod == Field(objects, keys[1], k);
          return true;
        }
        index := index + 1;
        d := d + 1;
        if index == length {
          if wrapAround {
            ProbePasses(keys, messageSelector, Capacity(keys));
            return false;
          }
          wrapAround := true;
          index := SELECTOR_START;
        }
      }
    }

    // The selector stands k places after the second field of the dictionary, and the method at place k of the array
    // in that field.
    ghost predicate Defined(keys: seq<Word>)
      reads this
    {
      |keys| > 2 &&
      exists k {:trigger Field(objects, keys[1], k)} ::
        0 <= k < |keys| - 2 && keys[k + 2] == messageSelector && newMethod == Field(objects, keys[1], k)
    }

    // The slot looked at is the d-th, or has been looked at before.
    lemma {:induction false} Looked(keys: seq<Word>, selector: Word, d: int, index: int)
      requires IsDictionary(keys) && 0 <= d < 2 * Capacity(keys) - Home(keys, selector) &&
        SELECTOR_START <= index < |keys| && Home(keys, selector) < Capacity(keys)
      requires index == Home(keys, selector) + d + SELECTOR_START ||
        index == Home(keys, selector) + d + SELECTOR_START - Capacity(keys)
      requires PassedOver(keys, selector, if d < Capacity(keys) then d else Capacity(keys))
      ensures d < Capacity(keys) ==> SlotAt(keys, selector, d) == index
      ensures d >= Capacity(keys) ==> keys[index] != NIL_POINTER && keys[index] != selector
    {
      if d >= Capacity(keys) {
        assert SlotAt(keys, selector, d - Capacity(keys)) == index;
      }
    }

    // Fields moved one by one.
    method Transfer(count: int, firstFrom: int, fromOop: Word, firstTo: int, toOop: Word)
      modifies this`objects
      ensures objects == Transferred(old(objects), count, firstFrom, fromOop, firstTo, toOop)
    {
      var fromIndex, toIndex, lastFrom := firstFrom, firstTo, firstFrom + count;
      while fromIndex < lastFrom
        invariant Transferred(old(objects), count, firstFrom, fromOop, firstTo, toOop) ==
          Transferred(objects, lastFrom - fromIndex, fromIndex, fromOop, toIndex, toOop)
      {
        var oop := Field(objects, fromOop, fromIndex);
        objects := SetField(objects, toOop, toIndex, oop);
        objects := SetField(objects, fromOop, fromIndex, NIL_POINTER);
        fromIndex := fromIndex + 1;
        toIndex := toIndex + 1;
      }
    }

    method Push(object_: Word)
      modifies this`objects, this`stackPointer
      ensures Machine() == Pushed(old(Machine()), object_)
    {
      stackPointer := stackPointer + 1;
      objects := SetField(objects, activeContext, stackPointer, object_);
    }

    method Pop(number: int)
      modifies this`stackPointer
      ensures stackPointer == old(stackPointer) - number
    {
      stackPointer := stackPointer - number;
    }

    method FillMessage(arguments: Word, message: Word)
      requires arguments !in objects && message !in objects && arguments != message
      modifies this`objects
      ensures objects == old(objects)[arguments := Nils(argumentCount)][message := [messageSelector, arguments]]
    {
      objects := objects[arguments := Nils(argumentCount)];
      objects := objects[message := Nils(MESSAGE_SIZE)];
      objects := SetField(objects, message, MESSAGE_SELECTOR_INDEX, messageSelector);
      objects := SetField(objects, message, MESSAGE_ARGUMENTS_INDEX, arguments);
      assert objects[message] == [messageSelector, arguments];
    }

    // The objects are new ones that the object memory gives.
    method CreateActualMessage(arguments: Word, message: Word)
      requires activeContext in objects && arguments !in objects && message !in objects && arguments != message
      requires argumentCount <= stackPointer && stackPointer - argumentCount + 1 < |objects[activeContext]| &&
        stackPointer < |objects[activeContext]|
      modifies this`objects, this`stackPointer, this`argumentCount
      ensures Packed(old(objects), objects, activeContext, old(stackPointer), old(argumentCount), messageSelector,
        arguments, message)
      ensures stackPointer == old(stackPointer) - old(argumentCount) + 1 && argumentCount == 1
    {
      ghost var o := objects;
      FillMessage(arguments, message);
      ghost var o1 := objects;
      Transfer(argumentCount, stackPointer - (argumentCount - 1), activeContext, 0, arguments);
      ghost var o2 := objects;
      Pop(argumentCount);
      Push(message);
      MessageMade(o, o1, o2, old(stackPointer), old(argumentCount), arguments, message, objects);
      argumentCount := 1;
    }

    lemma {:induction false} MessageMade(o: Heap, o1: Heap, o2: Heap, top: int, count: nat, arguments: Word,
                                         message: Word, o3: Heap)
      requires activeContext in o && arguments !in o && message !in o && arguments != message && count <= top &&
        top - count + 1 < |o[activeContext]| && top < |o[activeContext]|
      requires o1 == o[arguments := Nils(count)][message := [messageSelector, arguments]]
      requires o2 == Transferred(o1, count, top - (count - 1), activeContext, 0, arguments)
      requires o3 == SetField(o2, activeContext, top - count + 1, message)
      ensures Packed(o, o3, activeContext, top, count, messageSelector, arguments, message)
    {
      forall p
        ensures SizeOf(o3, p) == SizeOf(o1, p) && (p in o3 <==> p in o1) &&
          (p != activeContext && p != arguments && p in o1 ==> o3[p] == o1[p])
      {
        MessageField(o1, o2, top, count, arguments, message, o3, p, 0);
      }
      forall j
        ensures Field(o3, activeContext, j) == if j == top - count + 1 then message
                                               else if top - count + 1 < j <= top then NIL_POINTER
                                               else Field(o, activeContext, j)
      {
        MessageField(o1, o2, top, count, arguments, message, o3, activeContext, j);
      }
      forall p
        ensures p in o3.Keys <==> p in o.Keys + {arguments, message}
      {
        MessageField(o1, o2, top, count, arguments, message, o3, p, 0);
      }
      assert o3.Keys == o.Keys + {arguments, message};
      assert SizeOf(o3, arguments) == count;
      forall i | 0 <= i < count
        ensures o3[arguments][i] == Field(o, activeContext, top - count + 1 + i)
      {
        MessageField(o1, o2, top, count, arguments, message, o3, arguments, i);
        assert Field(o3, arguments, i) == o3[arguments][i];
      }
    }

    lemma {:induction false} MessageField(o1: Heap, o2: Heap, top: int, count: nat, arguments: Word, message: Word,
                                          o3: Heap, p: int, j: int)
      requires activeContext in o1 && arguments in o1 && activeContext != arguments && |o1[arguments]| == count
      requires count <= top && top - count + 1 < |o1[activeContext]| && top < |o1[activeContext]|
      requires o2 == Transferred(o1, count, top - (count - 1), activeContext, 0, arguments)
      requires o3 == SetField(o2, activeContext, top - count + 1, message)
      ensures Field(o3, p, j) == if p == activeContext && j == top - count + 1 then message
                                 else if p == activeContext && top - count + 1 < j <= top then NIL_POINTER
                                 else if p == arguments && 0 <= j < count then
                                   Field(o1, activeContext, top - count + 1 + j)
                                 else Field(o1, p, j)
      ensures SizeOf(o3, p) == SizeOf(o1, p) && (p in o3 <==> p in o1) &&
        (p != activeContext && p != arguments && p in o1 ==> o3[p] == o1[p])
    {
      TransferredField(o1, count, top - (count - 1), activeContext, 0, arguments, p, j);
      TransferredField(o1, count, top - (count - 1), activeContext, 0, arguments, activeContext, 0);
      FieldAfterSet(o2, activeContext, top - count + 1, message, p, j);
    }

    // The search along the superclasses; a message that is not understood is packed and
    // doesNotUnderstand: sought in its place, once.  Without that the system stops.
    method LookupMethodInClass(cls: Word, arguments: Word, message: Word, ghost chain: seq<int>, ghost code: set<int>)
      returns (ok: bool)
      requires ChainOf(objects, cls, chain) && CodeOf(objects, chain, code) && activeContext in objects &&
        activeContext !in code
      requires !Resolve(objects, chain, messageSelector).Understood? && messageSelector != DOES_NOT_UNDERSTAND ==>
        MessageFits(arguments, message, code)
      modifies this`objects, this`stackPointer, this`argumentCount, this`messageSelector, this`newMethod,
        this`primitiveIndex
      ensures Sought(old(objects), chain, old(messageSelector), ok, messageSelector, newMethod, primitiveIndex)
      ensures Replaced(old(objects), chain, old(messageSelector), old(stackPointer), old(argumentCount), arguments,
        message)
      ensures SameCode(old(objects), objects, code)
      decreases if messageSelector == DOES_NOT_UNDERSTAND then 0 else 1
    {
      ghost var rest, o := chain, objects;
      var currentClass: Word := cls;
      while currentClass != NIL_POINTER
        invariant ChainOf(objects, currentClass, rest) &&
          FindFrom(objects, chain, messageSelector) == FindFrom(objects, rest, messageSelector)
        invariant objects == o && stackPointer == old(stackPointer) && argumentCount == old(argumentCount) &&
          messageSelector == old(messageSelector)
        decreases |rest|
      {
        var dictionary := Field(objects, currentClass, MESSAGE_DICTIONARY_INDEX);
        var found := LookupMethodInDictionary(dictionary);
        if found {
          return true;
        }
        currentClass := Field(objects, currentClass, SUPERCLASS_INDEX);
        rest := rest[1..];
      }
      if messageSelector == DOES_NOT_UNDERSTAND {
        return false;
      }
      CreateActualMessage(arguments, message);
      PackedCode(o, objects, old(stackPointer), old(argumentCount), arguments, message, code);
      SameFind(o, objects, chain, code, cls, DOES_NOT_UNDERSTAND);
      messageSelector := DOES_NOT_UNDERSTAND;
      ok := LookupMethodInClass(cls, arguments, message, chain, code);
    }

    // There is room for a message: two new objects, and the place of the arguments on the stack.
    ghost predicate MessageFits(arguments: Word, message: Word, code: set<int>)
      reads this
    {
      activeContext in objects && arguments !in objects && message !in objects && arguments != message &&
        arguments !in code && message !in code &&
      argumentCount <= stackPointer && stackPointer - argumentCount + 1 < |objects[activeContext]| &&
        stackPointer < |objects[activeContext]|
    }

    // What the search does to the stack: nothing, if the selector is understood.
    ghost predicate Replaced(o: Heap, chain: seq<int>, selector: Word, top: int, count: nat, arguments: Word,
                             message: Word)
      reads this
    {
      match Resolve(o, chain, selector)
      case Understood(_, _) => objects == o && stackPointer == top && argumentCount == count
      case Instead(_, _) => Packed(o, objects, activeContext, top, count, selector, arguments, message) &&
        stackPointer == top - count + 1 && argumentCount == 1
      case Unresolved => true
    }

    lemma {:induction false} PackedCode(o: Heap, o': Heap, top: int, count: nat, arguments: Word, message: Word,
                                        code: set<int>)
      requires Packed(o, o', activeContext, top, count, messageSelector, arguments, message)
      requires activeContext !in code && arguments !in code && message !in code && arguments !in o && message !in o
      ensures SameCode(o, o', code)
    {
      forall p | p in code
        ensures (p in o <==> p in o') && (p in o ==> o'[p] == o[p])
      {
        assert p in o'.Keys <==> p in o.Keys + {arguments, message};
      }
    }

    // The cache

    method InitializeMethodCache()
      requires methodCache.Length == 4 * CACHE_ENTRIES
      modifies methodCache
      ensures forall o, chains :: CacheRight(methodCache[..], o, chains)
    {
      for i := 0 to methodCache.Length
        invariant forall k :: 0 <= k < i ==> methodCache[k] == NIL_POINTER
      {
        methodCache[i] := NIL_POINTER;
      }
    }

    // All chains that the cache knows, and the objects that they read.
    ghost predicate Known(chains: map<int, seq<int>>, code: set<int>)
      reads this
    {
      forall c {:trigger c in chains} :: c in chains ==>
        ChainOf(objects, c, chains[c]) && CodeOf(objects, chains[c], code)
    }

    // The selector and the class are both nil, and so are those of the entry for them.
    ghost predicate FindsBlank(cls: Word)
      requires methodCache.Length == 4 * CACHE_ENTRIES
      reads this, methodCache
    {
      messageSelector == cls == methodCache[8] == methodCache[9] == NIL_POINTER
    }

    // The method from the cache, or from the search.  Both leave the same, unless a blank entry is found.
    method FindNewMethodInClass(cls: Word, arguments: Word, message: Word, ghost chains: map<int, seq<int>>,
                                ghost code: set<int>)
      returns (ok: bool)
      requires Known(chains, code) && cls as int in chains && CacheRight(methodCache[..], objects, chains)
      requires activeContext in objects && activeContext !in code
      requires messageSelector != DOES_NOT_UNDERSTAND ==>
        Resolve(objects, chains[cls as int], messageSelector).Understood? || MessageFits(arguments, message, code)
      modifies this`objects, this`stackPointer, this`argumentCount, this`messageSelector, this`newMethod,
        this`primitiveIndex, methodCache
      ensures !old(FindsBlank(cls)) <==>
        Sought(old(objects), chains[cls as int], old(messageSelector), ok, messageSelector, newMethod, primitiveIndex)
      ensures !old(FindsBlank(cls)) ==>
        Replaced(old(objects), chains[cls as int], old(messageSelector), old(stackPointer), old(argumentCount),
          arguments, message)
      ensures old(FindsBlank(cls)) ==>
        ok && newMethod == NIL_POINTER && primitiveIndex == NIL_POINTER as int && objects == old(objects) &&
        messageSelector == NIL_POINTER && stackPointer == old(stackPointer) && argumentCount == old(argumentCount)
      ensures ok ==> CacheRight(methodCache[..], objects, chains)
      ensures ok ==> Entered(old(methodCache[..]), CacheSlot(old(messageSelector), cls), cls, methodCache[..])
      ensures SameCode(old(objects), objects, code)
    {
      ghost var o, cache, selector := objects, methodCache[..], messageSelector;
      CacheSlotInside(messageSelector, cls);
      NilSlot(messageSelector, cls);
      var hash := 4 * And(And(messageSelector, cls), 255);
      ghost var k := And(And(messageSelector, cls), 255);
      assert cache[4 * k] == methodCache[hash] &&
        EntryRight(o, chains, cache[4 * k], cache[4 * k + 1], cache[4 * k + 2], cache[4 * k + 3]);
      if methodCache[hash] == messageSelector && methodCache[hash + 1] == cls {
        newMethod := methodCache[hash + 2];
        primitiveIndex := methodCache[hash + 3];
        ok := true;
        EnteredAlready(cache, hash, cls);
        EntryHit(o, chains, cls, selector, newMethod, primitiveIndex);
      } else {
        ok := LookupMethodInClass(cls, arguments, message, chains[cls as int], code);
        if !ok {
          return;
        }
        EntryFound(o, chains, cls, selector, messageSelector, newMethod, primitiveIndex);
        EnterInCache(hash, cls, o, chains, k, code);
      }
    }

    // The four words from `hash` on tell what was found, and the others what they told.
    ghost predicate Entered(cache: seq<Word>, hash: int, cls: Word, cache': seq<Word>)
      reads this
    {
      |cache'| == |cache| && 0 <= hash <= |cache| - 4 && 0 <= primitiveIndex < 65536 &&
      cache' == cache[..hash] + [messageSelector, cls, newMethod, primitiveIndex] + cache[hash + 4..]
    }

    lemma {:induction false} EnteredAlready(cache: seq<Word>, hash: int, cls: Word)
      requires 0 <= hash <= |cache| - 4 && 0 <= primitiveIndex < 65536
      requires cache[hash] == messageSelector && cache[hash + 1] == cls && cache[hash + 2] == newMethod &&
        cache[hash + 3] == primitiveIndex
      ensures Entered(cache, hash, cls, cache)
    {
    }

    // What was found is entered.
    method EnterInCache(hash: int, cls: Word, ghost o: Heap, ghost chains: map<int, seq<int>>, ghost k: int,
                        ghost code: set<int>)
      requires CacheRight(methodCache[..], o, chains) && SameCode(o, objects, code) && 0 <= k < CACHE_ENTRIES &&
        hash == 4 * k
      requires forall c {:trigger c in chains} :: c in chains ==> CodeOf(o, chains[c], code)
      requires 0 <= primitiveIndex < 65536 && EntryRight(o, chains, messageSelector, cls, newMethod, primitiveIndex)
      modifies methodCache
      ensures CacheRight(methodCache[..], objects, chains) && Entered(old(methodCache[..]), hash, cls, methodCache[..])
    {
      ghost var cache := methodCache[..];
      methodCache[hash] := messageSelector;
      methodCache[hash + 1] := cls;
      methodCache[hash + 2] := newMethod;
      methodCache[hash + 3] := primitiveIndex;
      CacheStays(cache, o, chains, methodCache[..], k, objects, code);
    }

    lemma {:induction false} NilSlot(selector: Word, cls: Word)
      ensures selector == cls == NIL_POINTER ==> CacheSlot(selector, cls) == 8
    {
      assert And(1, 1) == 1;
      assert And(2, 2) == 2;
      assert And(1, 127) == 1;
      assert And(2, 255) == 2;
    }

    // What a right entry tells, unless it is blank.
    lemma {:induction false} EntryHit(o: Heap, chains: map<int, seq<int>>, cls: Word, selector: Word, m: Word,
                                      primitive: Word)
      requires cls as int in chains && EntryRight(o, chains, selector, cls, m, primitive)
      ensures !(selector == cls == NIL_POINTER) ==> Resolve(o, chains[cls as int], selector) == Understood(m, primitive)
      ensures selector == cls == NIL_POINTER ==>
        m == NIL_POINTER && primitive == NIL_POINTER && !Resolve(o, chains[cls as int], selector).Understood?
    {
      NilUnknown(o, chains[cls as int]);
    }

    // What is found is a right entry, under the selector sought last.
    lemma {:induction false} EntryFound(o: Heap, chains: map<int, seq<int>>, cls: Word, selector: Word, selector': Word,
                                        m: Word, primitive: int)
      requires cls as int in chains && ChainOf(o, cls, chains[cls as int]) &&
        Sought(o, chains[cls as int], selector, true, selector', m, primitive)
      ensures 0 <= primitive < 65536 && EntryRight(o, chains, selector', cls, m, primitive)
    {
      FoundSmall(o, chains[cls as int], selector');
      NilUnknown(o, chains[cls as int]);
    }

    lemma {:induction false} FoundSmall(o: Heap, chain: seq<int>, selector: Word)
      ensures FindFrom(o, chain, selector).Method? ==> FindFrom(o, chain, selector).primitive < 65536
    {
      if chain != [] {
        FoundSmall(o, chain[1..], selector);
        var d := DictionaryOf(o, chain[0]);
        if FindIn(o, d, selector).Method? {
          PrimitiveSmall(o, FindIn(o, d, selector).newMethod);
        }
      }
    }

    // No class defines nil.
    lemma {:induction false} NilUnknown(o: Heap, chain: seq<int>)
      ensures FindFrom(o, chain, NIL_POINTER).Nothing?
    {
      if chain != [] {
        NilUnknown(o, chain[1..]);
        var d := DictionaryOf(o, chain[0]);
        if d in o && IsDictionary(o[d]) {
          ProbeNil(o[d], 0);
        }
      }
    }

    // One entry is new; the others tell what they told.
    lemma {:induction false} CacheStays(cache: seq<Word>, o: Heap, chains: map<int, seq<int>>, cache': seq<Word>,
                                        k: int, o': Heap, code: set<int>)
      requires CacheRight(cache, o, chains) && SameCode(o, o', code) && |cache'| == |cache| && 0 <= k < CACHE_ENTRIES
      requires forall c {:trigger c in chains} :: c in chains ==> CodeOf(o, chains[c], code)
      requires EntryRight(o, chains, cache'[4 * k], cache'[4 * k + 1], cache'[4 * k + 2], cache'[4 * k + 3])
      requires forall i {:trigger cache'[i]} :: 0 <= i < |cache| && !(4 * k <= i < 4 * k + 4) ==> cache'[i] == cache[i]
      ensures CacheRight(cache', o', chains)
    {
      forall j | 0 <= j < CACHE_ENTRIES
        ensures EntryRight(o', chains, cache'[4 * j], cache'[4 * j + 1], cache'[4 * j + 2], cache'[4 * j + 3])
      {
        var cls := cache'[4 * j + 1];
        assert EntryRight(o, chains, cache[4 * j], cache[4 * j + 1], cache[4 * j + 2], cache[4 * j + 3]);
        if cls as int in chains {
          SameFind(o, o', chains[cls as int], code, cls, cache'[4 * j]);
        }
      }
    }

    // Contexts

    method StoreContextRegisters()
      modifies this`objects
      ensures objects == Stored(old(Machine()))
      ensures SizeOf(objects, activeContext) > 2 && IsIntegerValue(instructionPointer + 1) ==>
        Field(objects, activeContext, 1) == IntegerObject(instructionPointer + 1)
      ensures SizeOf(objects, activeContext) > 2 && IsIntegerValue(stackPointer - 5) ==>
        Field(objects, activeContext, 2) == IntegerObject(stackPointer - 5)
    {
      objects := StoreInteger(objects, activeContext, INSTRUCTION_POINTER_INDEX, instructionPointer + 1);
      objects := StoreInteger(objects, activeContext, STACK_POINTER_INDEX, stackPointer - TEMP_FRAME_START + 1);
    }

    method FetchContextRegisters()
      modifies this`homeContext, this`receiver, this`currentMethod, this`instructionPointer, this`stackPointer
      ensures Machine() == Contexts.Machine(objects, Fetched(objects, activeContext))
      ensures homeContext == if Field(objects, activeContext, 3) % 2 == 1 then Field(objects, activeContext, 5)
        else activeContext
      ensures receiver == Field(objects, homeContext, 5) && currentMethod == Field(objects, homeContext, 3)
    {
      if IsBlockContext(objects, activeContext) {
        homeContext := Field(objects, activeContext, HOME_INDEX);
      } else {
        homeContext := activeContext;
      }
      receiver := Field(objects, homeContext, RECEIVER_INDEX);
      currentMethod := Field(objects, homeContext, METHOD_INDEX);
      instructionPointer := FetchInteger(objects, activeContext, INSTRUCTION_POINTER_INDEX) - 1;
      stackPointer := FetchInteger(objects, activeContext, STACK_POINTER_INDEX) + TEMP_FRAME_START - 1;
    }

    method NewActiveContext(aContext: Word)
      modifies this`objects, this`activeContext, this`homeContext, this`receiver, this`currentMethod,
        this`instructionPointer, this`stackPointer
      ensures Machine() == Contexts.Machine(Stored(old(Machine())), Fetched(Stored(old(Machine())), aContext))
    {
      StoreContextRegisters();
      activeContext := aContext;
      FetchContextRegisters();
    }

    // The new context before receiver and arguments are moved to it.
    method FillContext(newContext: Word)
      requires newContext !in objects
      modifies this`objects
      ensures objects == Framed(old(objects), newContext, newMethod, activeContext)
    {
      ghost var o := objects;
      var contextSize := (if LargeContextFlagOf(objects, newMethod) == 1 then 32 else 12) + TEMP_FRAME_START;
      var initial := InitialInstructionPointerOf(objects, newMethod);
      var temporaries := TemporaryCountOf(objects, newMethod);
      objects := objects[newContext := Nils(contextSize)];
      objects := SetField(objects, newContext, SENDER_INDEX, activeContext);
      objects := StoreInteger(objects, newContext, INSTRUCTION_POINTER_INDEX, initial);
      objects := StoreInteger(objects, newContext, STACK_POINTER_INDEX, temporaries);
      objects := SetField(objects, newContext, METHOD_INDEX, newMethod);
      assert objects == Framed(o, newContext, newMethod, activeContext);
    }

    // The context is a new object that the object memory gives.
    method ActivateNewMethod(newContext: Word)
      requires newContext !in objects
      modifies this`objects, this`activeContext, this`homeContext, this`receiver, this`currentMethod,
        this`instructionPointer, this`stackPointer
      ensures Machine() == Activated(old(Machine()), newContext, newMethod, argumentCount)
    {
      ghost var x := Machine();
      FillContext(newContext);
      Transfer(argumentCount + 1, stackPointer - argumentCount, activeContext, RECEIVER_INDEX, newContext);
      Pop(argumentCount + 1);
      assert Machine() == Sent(x, newContext, newMethod, argumentCount);
      NewActiveContext(newContext);
    }

    method NilContextFields()
      modifies this`objects
      ensures objects == Ended(old(Machine()))
      ensures SizeOf(objects, activeContext) > 1 ==>
        Field(objects, activeContext, 0) == NIL_POINTER && Field(objects, activeContext, 1) == NIL_POINTER
    {
      objects := SetField(objects, activeContext, SENDER_INDEX, NIL_POINTER);
      objects := SetField(objects, activeContext, INSTRUCTION_POINTER_INDEX, NIL_POINTER);
    }

    method ReturnToActiveContext(aContext: Word)
      modifies this`objects, this`activeContext, this`homeContext, this`receiver, this`currentMethod,
        this`instructionPointer, this`stackPointer
      ensures Machine() == Contexts.Machine(Ended(old(Machine())), Fetched(Ended(old(Machine())), aContext))
    {
      NilContextFields();
      activeContext := aContext;
      FetchContextRegisters();
    }

    // The return; when there is nothing to return to, cannotReturn: is to be sent to the context.
    method ReturnValueTo(resultPointer: Word, contextPointer: Word) returns (returned: bool)
      modifies this`objects, this`activeContext, this`homeContext, this`receiver, this`currentMethod,
        this`instructionPointer, this`stackPointer, this`messageSelector, this`argumentCount
      ensures returned == CanReturn(old(objects), contextPointer)
      ensures returned <==> contextPointer != 2 && Field(old(objects), contextPointer, 1) != 2
      ensures returned ==> Machine() == Returned(old(Machine()), resultPointer, contextPointer)
      ensures returned ==> activeContext == contextPointer
      ensures returned ==>
        (homeContext == if Field(old(objects), contextPointer, 3) % 2 == 1 then Field(old(objects), contextPointer, 5)
                        else contextPointer)
      ensures !returned ==>
        Machine() == Pushed(Pushed(old(Machine()), old(activeContext)), resultPointer) &&
        messageSelector == CANNOT_RETURN && argumentCount == 1
    {
      if contextPointer == NIL_POINTER || Field(objects, contextPointer, INSTRUCTION_POINTER_INDEX) == NIL_POINTER {
        Push(activeContext);
        Push(resultPointer);
        messageSelector := CANNOT_RETURN;
        argumentCount := 1;
        return false;
      }
      ReturnToActiveContext(contextPointer);
      Push(resultPointer);
      returned := true;
    }
  }
}
