/** `allocate_unique_macros`: packing bytecode into the shared store. */
module Allocator {
  import opened Bytes
  import opened Macro
  import opened Store
  import opened PageBuffers
  import opened Packing
  import opened Layout
  import Sector

  datatype AllocError =
    | BadMacro(reason: TokenError)
    | StoreExhausted
    | NeedsMorePages

  /** The loop variables of the allocator: write position and abandoned bytes. */
  datatype Cursor = Cursor(page: nat, offset: nat, waste: int)

  datatype MacroStore = MacroStore(
    images: Images,
    allocations: seq<Allocation>,
    sourceBytes: int,
    allocatedBytes: int,
    jumpOverhead: int,
    fragmentationWaste: int,
    rawFreeBytes: int,
    usableFreeBytes: int)

  /** Source bytes that certainly fit, whatever the macros: seven pages left at worst
      with 246 source bytes each, and 248 on the last one. */
  const SAFE_CAPACITY: nat := 1970

  // ---------------------------------------------------------------- the innermost loop

  /** Collect instructions while they fit beside a JUMP. */
  method FitTokens(tokens: seq<Token>, start: nat, capacity: int) returns (next: nat, used: nat)
    requires start <= |tokens| && 0 <= capacity < |Flatten(tokens[start..])|
    requires AllTokens(tokens)
    ensures start <= next < |tokens| && used == |Flatten(tokens[start..next])| <= capacity
    ensures used + |tokens[next]| > capacity
    ensures Flatten(tokens[start..]) == Flatten(tokens[start..next]) + Flatten(tokens[next..])
  {
    hide Flatten;
    next, used := start, 0;
    SomethingLeft(tokens, start);
    NothingTaken(tokens, start);
    while next < |tokens| && used + |tokens[next]| <= capacity
      invariant start <= next < |tokens| && used == |Flatten(tokens[start..next])| <= capacity
      invariant Flatten(tokens[start..]) == Flatten(tokens[start..next]) + Flatten(tokens[next..])
    {
      OneMoreTaken(tokens, start, next);
      used := used + |tokens[next]|;
      next := next + 1;
      SomethingLeft(tokens, next);
    }
  }

  lemma NothingTaken(tokens: seq<Token>, start: nat)
    requires start <= |tokens|
    ensures Flatten(tokens[start..start]) == []
    ensures Flatten(tokens[start..]) == Flatten(tokens[start..start]) + Flatten(tokens[start..])
  {
  }

  /** Moving the cut past one more instruction. */
  lemma OneMoreTaken(tokens: seq<Token>, start: nat, next: nat)
    requires start <= next < |tokens|
    ensures |Flatten(tokens[start..next + 1])| == |Flatten(tokens[start..next])| + |tokens[next]|
    ensures Flatten(tokens[start..next]) + Flatten(tokens[next..]) ==
            Flatten(tokens[start..next + 1]) + Flatten(tokens[next + 1..])
  {
    FlattenConcat(tokens[start..next], [tokens[next]]);
    assert Flatten([tokens[next]]) == tokens[next] + Flatten([]) == tokens[next];
    assert tokens[start..next + 1] == tokens[start..next] + [tokens[next]];
    assert tokens[next..][1..] == tokens[next + 1..];
  }

  lemma SomethingLeft(tokens: seq<Token>, n: nat)
    requires n <= |tokens|
    ensures Flatten(tokens[n..]) != [] ==> n < |tokens|
  {}

  // ---------------------------------------------------------------- one macro

  /** The accounting that holds between and during macros: `fs` are all fragments so
      far and `source` the number of source bytes in them. */
  ghost predicate Accounted(fs: seq<Fragment>, source: nat, cursor: Cursor) {
    0 <= cursor.waste && TotalSize(fs) + cursor.waste == PAGE_DATA_SIZE * cursor.page + cursor.offset &&
    TotalSize(fs) == source + 5 * JumpCount(fs)
  }

  /** Every page left behind carries at least 246 source bytes. */
  ghost predicate Dense(source: nat, cursor: Cursor) {
    source >= 246 * cursor.page + cursor.offset
  }

  /** The write position after giving up the rest of a page. */
  function LeftBehind(cursor: Cursor): Cursor {
    Cursor(cursor.page + 1, 0, cursor.waste + (PAGE_DATA_SIZE - cursor.offset))
  }

  lemma LeavePage(fs: seq<Fragment>, source: nat, cursor: Cursor)
    requires cursor.offset <= PAGE_DATA_SIZE && Accounted(fs, source, cursor)
    ensures Accounted(fs, source, LeftBehind(cursor))
  {
    hide TotalSize;
    hide JumpCount;
  }

  /** One more fragment ending at `cursor.offset + Size(f)` on the same page. */
  lemma AccountFragment(fs: seq<Fragment>, f: Fragment, source: nat, used: nat, cursor: Cursor, end: nat)
    requires Accounted(fs, source, cursor)
    requires f.offset == cursor.offset && f.end == end == cursor.offset + used + (if f.jump.Some? then 5 else 0)
    ensures Accounted(fs + [f], source + used, cursor.(offset := end))
  {
    hide TotalSize;
    hide JumpCount;
    CountsSnoc(fs, f);
  }

  /** The write position, counted in payload bytes across the pages. */
  function At(cursor: Cursor): int {
    PAGE_DATA_SIZE * cursor.page + cursor.offset
  }

  /** What placing a macro establishes. */
  ghost predicate MacroPlaced(images: Images, a: Allocation, start: Cursor, end: Cursor, bytecode: seq<byte>,
                              earlier: seq<Fragment>, source: nat)
  {
    && end.page < STORE_PAGES && end.offset <= PAGE_DATA_SIZE
    && Placed(images, a.fragments, bytecode)
    && Position(a.fragments[0]) == StartAfter(At(start), bytecode)
    && a.sector == a.fragments[0].sector && a.offset == a.fragments[0].offset
    && a.sourceLength == |bytecode|
    && Ordered(earlier + a.fragments) && AllBehind(earlier + a.fragments, end.page, end.offset)
    && Untouched(images, end.page, end.offset) && Clear(images, earlier + a.fragments)
    && Accounted(earlier + a.fragments, source + |bytecode|, end)
    && Frontier(earlier + a.fragments) == PAGE_DATA_SIZE * end.page + end.offset
  }

  /** What writing a fragment that leaves by a JUMP establishes. */
  ghost predicate Jumped(images: Images, fragments: seq<Fragment>, all: seq<Fragment>, next: Cursor,
                         earlier: seq<Fragment>, bytecode: seq<byte>, rest: seq<byte>, source: nat, from: Cursor)
  {
    && next.page == from.page + 1 < STORE_PAGES && next.offset == 0
    && |all| == |fragments| + 1
    && (if fragments == [] then all[0].sector == FIRST_SECTOR + from.page && all[0].offset == from.offset
        else all[0] == fragments[0])
    && Progress(images, earlier, all, bytecode, rest, next.page, 0)
    && Accounted(earlier + all, source, next)
  }

  /** Write the rest of a macro as its last fragment. */
  method WriteLastFragment(pages: seq<array<byte>>, cursor: Cursor, tokens: seq<Token>, fragments: seq<Fragment>,
                           ghost bytecode: seq<byte>, ghost earlier: seq<Fragment>, ghost source: nat)
    returns (all: seq<Fragment>, end: Cursor)
    requires |pages| == STORE_PAGES && ValidPages(pages) && cursor.page < STORE_PAGES
    requires cursor.offset + |Flatten(tokens)| <= PAGE_DATA_SIZE
    requires tokens != [] && AllTokens(tokens)
    requires Progress(Contents(pages), earlier, fragments, bytecode, Flatten(tokens), cursor.page, cursor.offset)
    requires Accounted(earlier + fragments, source, cursor)
    modifies pages[cursor.page]
    ensures SameBefore(old(Contents(pages)), Contents(pages), cursor.page, cursor.offset)
    ensures end == cursor.(offset := cursor.offset + |Flatten(tokens)|)
    ensures all == fragments + [Fragment(FIRST_SECTOR + cursor.page, cursor.offset, end.offset, None)]
    ensures Placed(Contents(pages), all, bytecode) && Untouched(Contents(pages), end.page, end.offset)
    ensures Clear(Contents(pages), earlier + all)
    ensures Ordered(earlier + all) && AllBehind(earlier + all, end.page, end.offset)
    ensures Accounted(earlier + all, source + |Flatten(tokens)|, end)
    ensures Frontier(earlier + all) == PAGE_DATA_SIZE * end.page + end.offset
  {
    hide Untouched;
    hide Clear;
    hide SameBefore;
    hide Ordered;
    hide AllBehind;
    hide Placed;
    hide Patched;
    hide Progress;
    hide Contents;
    hide Accounted;
    hide ValidPages;
    ghost var before := Contents(pages);
    FlattenAtLeastCount(tokens);
    var offset := WriteTokens(pages, cursor.page, cursor.offset, tokens);
    var f := Fragment(FIRST_SECTOR + cursor.page, cursor.offset, offset, None);
    AddLast(before, Contents(pages), earlier, fragments, f, tokens, bytecode, cursor.page, cursor.offset);
    AccountFragment(earlier + fragments, f, source, |Flatten(tokens)|, cursor, offset);
    assert earlier + (fragments + [f]) == earlier + fragments + [f];
    all, end := fragments + [f], cursor.(offset := offset);
  }

  lemma JumpWritten(before: Images, after: Images, cursor: Cursor, tokens: seq<Token>, fragments: seq<Fragment>,
                    f: Fragment, rest: seq<byte>, bytecode: seq<byte>, earlier: seq<Fragment>, source: nat)
    requires cursor.page + 1 < STORE_PAGES && f.end <= PAGE_DATA_SIZE
    requires f == Fragment(FIRST_SECTOR + cursor.page, cursor.offset, cursor.offset + |Flatten(tokens)| + 5,
                           Some((FIRST_SECTOR + cursor.page + 1, 0)))
    requires tokens != [] && AllTokens(tokens)
    requires rest != [] && f.end + HeadSize(rest) > PAGE_DATA_SIZE
    requires cursor.offset + |Flatten(tokens)| + |rest| > PAGE_DATA_SIZE
    requires Progress(before, earlier, fragments, bytecode, Flatten(tokens) + rest, cursor.page, cursor.offset)
    requires Accounted(earlier + fragments, source, cursor)
    requires after == Patched(Patched(before, cursor.page, cursor.offset, Flatten(tokens)),
                              cursor.page, cursor.offset + |Flatten(tokens)|, JumpBytes(f.sector + 1, 0))
    ensures SameBefore(before, after, cursor.page, cursor.offset)
    ensures Jumped(after, fragments, fragments + [f], LeftBehind(cursor.(offset := f.end)), earlier, bytecode, rest,
                   source + |Flatten(tokens)|, cursor)
  {
    hide Untouched;
    hide Clear;
    hide SameBefore;
    hide Patched;
    hide Progress;
    hide Accounted;
    hide TokenSize;
    hide AllTokens;
    FlattenAtLeastCount(tokens);
    PatchedTwice(before, cursor.page, cursor.offset, Flatten(tokens), JumpBytes(f.sector + 1, 0));
    AddJumping(before, after, earlier, fragments, f, tokens, bytecode, rest, cursor.page, cursor.offset);
    AccountFragment(earlier + fragments, f, source, |Flatten(tokens)|, cursor, f.end);
    LeavePage(earlier + fragments + [f], source + |Flatten(tokens)|, cursor.(offset := f.end));
    assert earlier + (fragments + [f]) == earlier + fragments + [f];
  }

  /** Write instructions and a JUMP to the next page; the page is left behind. */
  method WriteJumpingFragment(pages: seq<array<byte>>, cursor: Cursor, tokens: seq<Token>, fragments: seq<Fragment>,
                              ghost rest: seq<byte>, ghost bytecode: seq<byte>, ghost earlier: seq<Fragment>,
                              ghost source: nat)
    returns (r: Result<(seq<Fragment>, Cursor), AllocError>)
    requires |pages| == STORE_PAGES && ValidPages(pages) && cursor.page < STORE_PAGES
    requires cursor.offset + |Flatten(tokens)| + 5 <= PAGE_DATA_SIZE
    requires tokens != [] && AllTokens(tokens)
    requires rest != [] && cursor.offset + |Flatten(tokens)| + 5 + HeadSize(rest) > PAGE_DATA_SIZE
    requires cursor.offset + |Flatten(tokens)| + |rest| > PAGE_DATA_SIZE
    requires Progress(Contents(pages), earlier, fragments, bytecode, Flatten(tokens) + rest, cursor.page, cursor.offset)
    requires Accounted(earlier + fragments, source, cursor)
    modifies pages[cursor.page]
    ensures SameBefore(old(Contents(pages)), Contents(pages), cursor.page, cursor.offset)
    ensures r.Ok? <==> cursor.page + 1 < STORE_PAGES
    ensures r.Err? ==> r.error == NeedsMorePages
    ensures r.Ok? ==> Jumped(Contents(pages), fragments, r.value.0, r.value.1, earlier, bytecode, rest,
                             source + |Flatten(tokens)|, cursor)
  {
    hide Untouched;
    hide Clear;
    hide SameBefore;
    hide Ordered;
    hide AllBehind;
    hide Patched;
    hide Progress;
    hide Contents;
    hide Accounted;
    hide ValidPages;
    hide TokenSize;
    hide Jumped;
    hide AllTokens;
    ghost var before := Contents(pages);
    var offset := WriteTokens(pages, cursor.page, cursor.offset, tokens);
    if cursor.page + 1 >= STORE_PAGES {
      WriteKeeps(before, cursor.page, cursor.offset, Flatten(tokens));
      return Err(NeedsMorePages);
    }
    var nextSector := FIRST_SECTOR + cursor.page + 1;
    var jump := JumpBytes(nextSector, 0);
    WriteBytes(pages, cursor.page, offset, jump);
    offset := offset + |jump|;
    var f := Fragment(FIRST_SECTOR + cursor.page, cursor.offset, offset, Some((nextSector, 0)));
    JumpWritten(before, Contents(pages), cursor, tokens, fragments, f, rest, bytecode, earlier, source);
    return Ok((fragments + [f], LeftBehind(cursor.(offset := offset))));
  }

  /** A page with fewer than six bytes left is given up before a macro starts. */
  method StartPage(ghost images: Images, start: Cursor, ghost earlier: seq<Fragment>, ghost source: nat)
    returns (cursor: Cursor)
    requires start.page < STORE_PAGES && start.offset <= PAGE_DATA_SIZE
    requires Ordered(earlier) && AllBehind(earlier, start.page, start.offset)
    requires Untouched(images, start.page, start.offset) && Accounted(earlier, source, start)
    ensures cursor == if start.offset > PAGE_DATA_SIZE - 6 then LeftBehind(start) else start
    ensures AllBehind(earlier, cursor.page, cursor.offset) && Untouched(images, cursor.page, cursor.offset)
    ensures Accounted(earlier, source, cursor)
  {
    hide Untouched;
    hide Clear;
    hide Ordered;
    hide AllBehind;
    hide Accounted;
    cursor := start;
    if cursor.offset > PAGE_DATA_SIZE - 6 {
      UntouchedFurther(images, cursor.page, cursor.offset, cursor.page + 1, 0);
      BehindFurther(earlier, cursor.page, cursor.offset, cursor.page + 1, 0);
      LeavePage(earlier, source, cursor);
      cursor := LeftBehind(cursor);
    }
  }

  /** The body of the loop over macros, after tokenizing. `earlier` and `source`
      describe the macros already placed. */
  method PlaceMacro(pages: seq<array<byte>>, start: Cursor, tokens: seq<Token>,
                    ghost bytecode: seq<byte>, ghost earlier: seq<Fragment>, ghost source: nat)
    returns (r: Result<(Allocation, Cursor), AllocError>)
    requires |pages| == STORE_PAGES && ValidPages(pages) && start.page < STORE_PAGES && start.offset <= PAGE_DATA_SIZE
    requires EndsInEnd(tokens) && AllTokens(tokens) && Flatten(tokens) == bytecode
    requires Ordered(earlier) && AllBehind(earlier, start.page, start.offset)
    requires Untouched(Contents(pages), start.page, start.offset) && Clear(Contents(pages), earlier)
    requires Accounted(earlier, source, start)
    modifies pages
    ensures SameBefore(old(Contents(pages)), Contents(pages), start.page, start.offset)
    ensures r.Ok? ==> MacroPlaced(Contents(pages), r.value.0, start, r.value.1, bytecode, earlier, source)
    ensures r.Ok? && ShortTokens(tokens) && Dense(source, start) ==> Dense(source + |bytecode|, r.value.1)
    ensures r.Ok? ==> start.page < r.value.1.page || (start.page == r.value.1.page && start.offset <= r.value.1.offset)
    ensures r.Err? ==> !r.error.BadMacro? && NoRoom(At(start), bytecode)
    ensures r.Err? && ShortTokens(tokens) && Dense(source, start) ==> source + |bytecode| > SAFE_CAPACITY
  {
    hide Untouched;
    hide Clear;
    hide SameBefore;
    hide Ordered;
    hide AllBehind;
    hide Placed;
    hide TokenSize;
    hide Progress;
    hide Frontier;
    hide Contents;
    hide Accounted;
    hide ValidPages;
    hide Linked;
    hide Flatten;
    hide Jumped;
    hide Stuck;
    hide StartAfter;
    hide At;
    hide MacroPlaced;
    ghost var goal := StartAfter(At(start), bytecode);
    ghost var dense := ShortTokens(tokens) && Dense(source, start);
    FlattenAtLeastCount(tokens);
    var cursor := StartPage(Contents(pages), start, earlier, source);
    SameBeforeItself(Contents(pages), start.page, start.offset);
    StartsHere(start, cursor, tokens);
    if cursor.page >= STORE_PAGES {
      return Err(StoreExhausted);
    }
    var startSector: nat, startOffset: nat := FIRST_SECTOR + cursor.page, cursor.offset;
    var fragments: seq<Fragment> := [];
    var index := 0;
    PlacingStarts(Contents(pages), earlier, bytecode, tokens, cursor, source, dense, goal);
    while index < |tokens|
      invariant start.page < cursor.page || (start.page == cursor.page && start.offset <= cursor.offset)
      invariant SameBefore(old(Contents(pages)), Contents(pages), start.page, start.offset)
      invariant Placing(Contents(pages), earlier, fragments, bytecode, tokens, index, cursor,
                        (startSector, startOffset), source, dense, goal)
      decreases |tokens| - index, STORE_PAGES - cursor.page
    {
      ghost var before, here, was := Contents(pages), cursor, fragments;
      ghost var placed := |bytecode| - |Flatten(tokens[index..])|;
      var available := PAGE_DATA_SIZE - cursor.offset;
      var remaining := |Flatten(tokens[index..])|;
      StartSettled(before, earlier, fragments, bytecode, tokens, index, cursor, (startSector, startOffset), source,
                   dense, goal);
      if remaining <= available {
        fragments, cursor := WriteLastFragment(pages, cursor, tokens[index..], fragments, bytecode, earlier,
                                               source + placed);
        SameBeforeTransitive(old(Contents(pages)), before, Contents(pages), start.page, start.offset, here.page,
                             here.offset);
        LastPlaced(before, Contents(pages), earlier, was, fragments, bytecode, tokens, index, here, cursor,
                   (startSector, startOffset), source, dense, start);
        r := Ok((Allocation(startSector, startOffset, |Flatten(tokens)|, fragments), cursor));
        return;
      }
      var next, used := FitTokens(tokens, index, available - 5);
      if next == index {
        if fragments == [] {
          PlacingSkips(before, earlier, bytecode, tokens, index, cursor, (startSector, startOffset), source, dense,
                       goal);
          cursor := LeftBehind(cursor);
          if cursor.page >= STORE_PAGES {
            return Err(StoreExhausted);
          }
          startSector, startOffset := FIRST_SECTOR + cursor.page, 0;
          continue;
        }
        // "allocator could not reserve JUMP space": a later page always has room.
        assert false;
      }
      FirstTaken(tokens, index, next);
      NextTokenDoesNotFit(tokens, next);
      var written := WriteJumpingFragment(pages, cursor, tokens[index..next], fragments, Flatten(tokens[next..]),
                                          bytecode, earlier, source + placed);
      SameBeforeTransitive(old(Contents(pages)), before, Contents(pages), start.page, start.offset, here.page,
                           here.offset);
      match written {
        case Err(e) =>
          GetsStuck(before, earlier, fragments, bytecode, tokens, index, cursor, (startSector, startOffset), source,
                    dense, goal);
          return Err(e);
        case Ok((all, onward)) =>
          PlacingJumps(before, Contents(pages), earlier, fragments, all, bytecode, tokens, index, next, cursor, onward,
                       (startSector, startOffset), source, dense, goal);
          fragments, cursor := all, onward;
      }
      index := next;
    }
  }

  /** The loop over fragments: the instructions before `index` are on the pages and `at` is
      where the macro starts. */
  ghost predicate Placing(images: Images, earlier: seq<Fragment>, fragments: seq<Fragment>, bytecode: seq<byte>,
                          tokens: seq<Token>, index: nat, cursor: Cursor, at: (nat, nat), source: nat, dense: bool,
                          goal: int)
  {
    && index < |tokens| && cursor.page < STORE_PAGES && cursor.offset <= PAGE_DATA_SIZE - 6
    && Flatten(tokens) == bytecode && |Flatten(tokens[index..])| <= |bytecode|
    && var placed := |bytecode| - |Flatten(tokens[index..])|;
    && Progress(images, earlier, fragments, bytecode, Flatten(tokens[index..]), cursor.page, cursor.offset)
    && (fragments != [] ==> cursor.offset == 0)
    && (if fragments == [] then
          index == 0 && at == (FIRST_SECTOR + cursor.page, cursor.offset) && StartAfter(At(cursor), bytecode) == goal
        else at == (fragments[0].sector, fragments[0].offset) && Position(fragments[0]) == goal)
    && Accounted(earlier + fragments, source + placed, cursor)
    && (dense ==> Dense(source + placed, cursor))
  }

  /** The first instruction of a macro, as the placement rule reads it from the bytes. */
  lemma HeadOf(tokens: seq<Token>)
    requires tokens != [] && AllTokens(tokens)
    ensures Flatten(tokens) != [] && HeadSize(Flatten(tokens)) == |tokens[0]| <= 5
  {
    assert tokens[0..] == tokens;
    NextTokenDoesNotFit(tokens, 0);
  }

  /** Giving up fewer than six bytes is what the placement rule does first. */
  lemma StartsHere(start: Cursor, cursor: Cursor, tokens: seq<Token>)
    requires tokens != [] && AllTokens(tokens) && start.page < STORE_PAGES && start.offset <= PAGE_DATA_SIZE
    requires cursor == if start.offset > PAGE_DATA_SIZE - 6 then LeftBehind(start) else start
    ensures StartAfter(At(start), Flatten(tokens)) == StartAfter(At(cursor), Flatten(tokens))
    ensures cursor.page >= STORE_PAGES ==> StartAfter(At(start), Flatten(tokens)) >= GLOBAL_PAYLOAD_CAPACITY
  {
    hide Flatten;
    hide HeadSize;
    HeadOf(tokens);
  }

  /** The rest of the rule: start here if the whole macro or its first instruction fits. */
  lemma StartsOrSkips(cursor: Cursor, tokens: seq<Token>)
    requires tokens != [] && AllTokens(tokens) && cursor.offset <= PAGE_DATA_SIZE - 6
    ensures cursor.offset + |Flatten(tokens)| <= PAGE_DATA_SIZE || cursor.offset + |tokens[0]| + 5 <= PAGE_DATA_SIZE ==>
              StartAfter(At(cursor), Flatten(tokens)) == At(cursor)
    ensures cursor.offset + |Flatten(tokens)| > PAGE_DATA_SIZE && cursor.offset + |tokens[0]| + 5 > PAGE_DATA_SIZE ==>
              StartAfter(At(cursor), Flatten(tokens)) == PAGE_DATA_SIZE * (cursor.page + 1)
              == StartAfter(At(LeftBehind(cursor)), Flatten(tokens))
  {
    hide Flatten;
    hide HeadSize;
    HeadOf(tokens);
  }

  /** Before its first fragment is written, a macro that starts here starts in place. */
  lemma StartSettled(images: Images, earlier: seq<Fragment>, fragments: seq<Fragment>, bytecode: seq<byte>,
                     tokens: seq<Token>, index: nat, cursor: Cursor, at: (nat, nat), source: nat, dense: bool,
                     goal: int)
    requires Placing(images, earlier, fragments, bytecode, tokens, index, cursor, at, source, dense, goal)
    requires AllTokens(tokens)
    ensures fragments == [] ==>
              if cursor.offset + |Flatten(tokens[index..])| <= PAGE_DATA_SIZE ||
                 cursor.offset + |tokens[index]| + 5 <= PAGE_DATA_SIZE
              then goal == At(cursor)
              else goal == StartAfter(At(LeftBehind(cursor)), bytecode) &&
                   (cursor.page + 1 >= STORE_PAGES ==> goal >= GLOBAL_PAYLOAD_CAPACITY)
  {
    hide Flatten;
    hide Progress;
    hide Accounted;
    hide StartAfter;
    hide IsToken;
    if fragments == [] {
      assert tokens[0..] == tokens;
      StartsOrSkips(cursor, tokens);
    }
  }

  lemma FirstTaken(tokens: seq<Token>, start: nat, next: nat)
    requires start < next <= |tokens|
    ensures |tokens[start]| <= |Flatten(tokens[start..next])|
  {
  }

  /** On the last page, what does not fit any more is the evidence for the refusal. */
  lemma GetsStuck(images: Images, earlier: seq<Fragment>, fragments: seq<Fragment>, bytecode: seq<byte>,
                  tokens: seq<Token>, index: nat, cursor: Cursor, at: (nat, nat), source: nat, dense: bool, goal: int)
    requires Placing(images, earlier, fragments, bytecode, tokens, index, cursor, at, source, dense, goal)
    requires cursor.page + 1 == STORE_PAGES && cursor.offset + |Flatten(tokens[index..])| > PAGE_DATA_SIZE
    requires fragments == [] ==> goal == At(cursor)
    ensures Stuck(images, fragments, Flatten(tokens[index..]), bytecode, goal)
  {
    hide Flatten;
    hide Accounted;
    hide Tight;
    hide Forced;
    hide Open;
    hide AllWritten;
    hide Untouched;
    hide Clear;
    hide Ordered;
    hide AllBehind;
    hide HeadSize;
    hide StartAfter;
    assert cursor.page == 7;
  }

  lemma PlacingStarts(images: Images, earlier: seq<Fragment>, bytecode: seq<byte>, tokens: seq<Token>, cursor: Cursor,
                      source: nat, dense: bool, goal: int)
    requires tokens != [] && Flatten(tokens) == bytecode
    requires cursor.page < STORE_PAGES && cursor.offset <= PAGE_DATA_SIZE - 6
    requires Untouched(images, cursor.page, cursor.offset) && Ordered(earlier) && Clear(images, earlier)
    requires AllBehind(earlier, cursor.page, cursor.offset)
    requires Accounted(earlier, source, cursor) && (dense ==> Dense(source, cursor))
    requires StartAfter(At(cursor), bytecode) == goal
    ensures Placing(images, earlier, [], bytecode, tokens, 0, cursor, (FIRST_SECTOR + cursor.page, cursor.offset),
                    source, dense, goal)
  {
    hide StartAfter;
    hide Untouched;
    hide Clear;
    hide Ordered;
    hide AllBehind;
    hide Progress;
    hide Accounted;
    hide Flatten;
    assert tokens[0..] == tokens && earlier + [] == earlier;
    StartProgress(images, earlier, bytecode, cursor.page, cursor.offset);
  }

  /** A first instruction that does not fit beside a JUMP moves the macro to the next page. */
  lemma PlacingSkips(images: Images, earlier: seq<Fragment>, bytecode: seq<byte>, tokens: seq<Token>, index: nat,
                     cursor: Cursor, at: (nat, nat), source: nat, dense: bool, goal: int)
    requires Placing(images, earlier, [], bytecode, tokens, index, cursor, at, source, dense, goal)
    requires cursor.offset + |tokens[index]| + 5 > PAGE_DATA_SIZE && (dense ==> ShortTokens(tokens))
    requires goal == StartAfter(At(LeftBehind(cursor)), bytecode)
    ensures cursor.page + 1 < STORE_PAGES ==>
              Placing(images, earlier, [], bytecode, tokens, index, LeftBehind(cursor),
                      (FIRST_SECTOR + cursor.page + 1, 0), source, dense, goal)
    ensures dense ==> Dense(source, LeftBehind(cursor))
  {
    hide StartAfter;
    hide Progress;
    hide Accounted;
    hide Flatten;
    assert earlier + [] == earlier;
    assert tokens[index] in tokens && tokens[index..] == tokens;
    SkipPage(images, earlier, bytecode, cursor.page, cursor.offset);
    LeavePage(earlier, source, cursor);
  }

  /** The last fragment completes the macro. */
  lemma LastPlaced(before: Images, after: Images, earlier: seq<Fragment>, fragments: seq<Fragment>,
                   all: seq<Fragment>, bytecode: seq<byte>, tokens: seq<Token>, index: nat, cursor: Cursor, end: Cursor,
                   at: (nat, nat), source: nat, dense: bool, start: Cursor)
    requires Placing(before, earlier, fragments, bytecode, tokens, index, cursor, at, source, dense,
                     StartAfter(At(start), bytecode))
    requires fragments == [] ==> StartAfter(At(start), bytecode) == At(cursor)
    requires end == cursor.(offset := cursor.offset + |Flatten(tokens[index..])|) && end.offset <= PAGE_DATA_SIZE
    requires all == fragments + [Fragment(FIRST_SECTOR + cursor.page, cursor.offset, end.offset, None)]
    requires Placed(after, all, bytecode) && Untouched(after, end.page, end.offset) && Clear(after, earlier + all)
    requires Ordered(earlier + all) && AllBehind(earlier + all, end.page, end.offset)
    requires Accounted(earlier + all, source + |bytecode|, end)
    requires Frontier(earlier + all) == PAGE_DATA_SIZE * end.page + end.offset
    ensures MacroPlaced(after, Allocation(at.0, at.1, |Flatten(tokens)|, all), start, end, bytecode, earlier, source)
  {
    hide Untouched;
    hide Clear;
    hide Ordered;
    hide AllBehind;
    hide Placed;
    hide Progress;
    hide Frontier;
    hide Accounted;
    hide Flatten;
    hide StartAfter;
  }

  /** A jumping fragment moves the macro on by the instructions it holds. */
  lemma PlacingJumps(before: Images, after: Images, earlier: seq<Fragment>, fragments: seq<Fragment>,
                     all: seq<Fragment>, bytecode: seq<byte>, tokens: seq<Token>, index: nat, next: nat,
                     cursor: Cursor, onward: Cursor, at: (nat, nat), source: nat, dense: bool, goal: int)
    requires Placing(before, earlier, fragments, bytecode, tokens, index, cursor, at, source, dense, goal)
    requires fragments == [] ==> goal == At(cursor)
    requires index < next < |tokens| && (dense ==> ShortTokens(tokens))
    requires cursor.offset + |Flatten(tokens[index..next])| + |tokens[next]| + 5 > PAGE_DATA_SIZE
    requires Flatten(tokens[index..]) == Flatten(tokens[index..next]) + Flatten(tokens[next..])
    requires Jumped(after, fragments, all, onward, earlier, bytecode, Flatten(tokens[next..]),
                    source + (|bytecode| - |Flatten(tokens[index..])|) + |Flatten(tokens[index..next])|, cursor)
    ensures Placing(after, earlier, all, bytecode, tokens, next, onward, at, source, dense, goal)
    ensures onward.page == cursor.page + 1
  {
    hide StartAfter;
    hide Progress;
    hide Accounted;
    hide Flatten;
    assert tokens[next] in tokens;
  }

  lemma SameBeforeItself(images: Images, page: nat, offset: nat)
    ensures SameBefore(images, images, page, offset)
  {}

  lemma WriteKeeps(images: Images, page: nat, offset: nat, bytes: seq<byte>)
    requires page < STORE_PAGES && offset + |bytes| <= SECTOR_SIZE
    ensures SameBefore(images, Patched(images, page, offset, bytes), page, offset)
  {
    PatchedKeeps(images, page, offset, bytes, Patched(images, page, offset, bytes));
  }

  lemma StartProgress(images: Images, earlier: seq<Fragment>, bytecode: seq<byte>, page: nat, offset: nat)
    requires Untouched(images, page, offset) && Ordered(earlier) && AllBehind(earlier, page, offset)
    requires Clear(images, earlier)
    ensures Progress(images, earlier, [], bytecode, bytecode, page, offset)
  {
    assert earlier + [] == earlier;
    assert TextFrom(images, [], 0) + bytecode == bytecode;
  }

  lemma NextTokenDoesNotFit(tokens: seq<Token>, next: nat)
    requires next < |tokens| && AllTokens(tokens)
    ensures Flatten(tokens[next..]) != [] && HeadSize(Flatten(tokens[next..])) == |tokens[next]|
  {
    assert tokens[next..][0] == tokens[next];
  }

  // ---------------------------------------------------------------- all macros

  function TotalLength(unique: seq<seq<byte>>): nat {
    if unique == [] then 0 else TotalLength(unique[..|unique| - 1]) + |unique[|unique| - 1]|
  }

  lemma {:induction false} TotalLengthMonotone(unique: seq<seq<byte>>, n: nat)
    requires n <= |unique|
    ensures TotalLength(unique[..n]) <= TotalLength(unique)
  {
    if n == |unique| {
      assert unique[..n] == unique;
    } else {
      TotalLengthMonotone(unique[..|unique| - 1], n);
      assert unique[..|unique| - 1][..n] == unique[..n];
    }
  }

  /** One allocation describes one macro on these pages. */
  ghost predicate Allocated(images: Images, a: Allocation, bytecode: seq<byte>) {
    Placed(images, a.fragments, bytecode) && a.fragments != [] &&
    a.sector == a.fragments[0].sector && a.offset == a.fragments[0].offset && a.sourceLength == |bytecode|
  }

  ghost predicate AllAllocated(images: Images, allocations: seq<Allocation>, unique: seq<seq<byte>>) {
    |allocations| <= |unique| &&
    forall j :: 0 <= j < |allocations| ==> Allocated(images, allocations[j], unique[j])
  }

  /** Every macro starts where the placement rule puts it, right behind the one before. */
  ghost predicate InPlace(allocations: seq<Allocation>, unique: seq<seq<byte>>) {
    |allocations| <= |unique| && forall j :: 0 <= j < |allocations| ==> StartsInPlace(allocations, unique, j)
  }

  ghost predicate StartsInPlace(allocations: seq<Allocation>, unique: seq<seq<byte>>, j: nat) {
    j < |allocations| <= |unique| && allocations[j].fragments != [] &&
    Position(allocations[j].fragments[0]) == StartAfter(Frontier(Fragments(allocations[..j])), unique[j])
  }

  lemma InPlaceSnoc(allocations: seq<Allocation>, a: Allocation, unique: seq<seq<byte>>)
    requires InPlace(allocations, unique) && |allocations| < |unique| && a.fragments != []
    requires Position(a.fragments[0]) == StartAfter(Frontier(Fragments(allocations)), unique[|allocations|])
    ensures InPlace(allocations + [a], unique)
  {
    hide StartAfter;
    hide Frontier;
    hide Fragments;
    var all := allocations + [a];
    forall j | 0 <= j < |all|
      ensures StartsInPlace(all, unique, j)
    {
      assert all[..j] == allocations[..j];
      if j < |allocations| {
        assert StartsInPlace(allocations, unique, j);
      } else {
        assert allocations[..j] == allocations;
      }
    }
  }

  ghost predicate EachBehind(allocations: seq<Allocation>, page: nat, offset: nat) {
    forall j :: 0 <= j < |allocations| ==> AllBehind(allocations[j].fragments, page, offset)
  }

  /** Every macro is one the tokenizer accepts. */
  predicate Tokenizable(unique: seq<seq<byte>>) {
    forall j :: 0 <= j < |unique| ==> Tokenize(unique[j]).Ok?
  }

  /** Every instruction is one or three bytes long: no JUMP in the source. */
  predicate AllShort(unique: seq<seq<byte>>) {
    forall j :: 0 <= j < |unique| && Tokenize(unique[j]).Ok? ==> ShortTokens(Tokenize(unique[j]).value)
  }

  /** What the allocator promises about the store it returns. */
  ghost predicate StoreDescribes(store: MacroStore, unique: seq<seq<byte>>) {
    var fs := Fragments(store.allocations);
    && |store.allocations| == |unique| && Tokenizable(unique)
    && AllAllocated(store.images, store.allocations, unique) && InPlace(store.allocations, unique)
    && (forall k :: 0 <= k < STORE_PAGES ==> Sector.SectorCrcOk(store.images[k]))
    && Ordered(fs)
    && store.sourceBytes == TotalLength(unique)
    && store.allocatedBytes == TotalSize(fs)
    && store.jumpOverhead == 5 * JumpCount(fs)
    && 0 <= store.fragmentationWaste == Frontier(fs) - store.allocatedBytes
    && store.rawFreeBytes == GLOBAL_PAYLOAD_CAPACITY - store.allocatedBytes
    && 0 <= store.usableFreeBytes == GLOBAL_PAYLOAD_CAPACITY - Frontier(fs)
    && FreeTail(store.images, Frontier(fs)) && Clear(store.images, fs)
  }

  /** From the frontier on, no payload byte has been written. */
  ghost predicate FreeTail(images: Images, frontier: int) {
    forall k: nat, o: nat {:trigger images[k][o]} ::
      k < STORE_PAGES && o < PAGE_DATA_SIZE && PAGE_DATA_SIZE * k + o >= frontier ==> images[k][o] == 0xFF
  }

  lemma AllocationsStay(a: Images, b: Images, allocations: seq<Allocation>, unique: seq<seq<byte>>,
                        page: nat, offset: nat)
    requires AllAllocated(a, allocations, unique) && EachBehind(allocations, page, offset)
    requires SameBefore(a, b, page, offset)
    ensures AllAllocated(b, allocations, unique)
  {
    hide Placed;
    hide SameBefore;
    hide AllBehind;
    hide SameOn;
    forall j | 0 <= j < |allocations|
      ensures Allocated(b, allocations[j], unique[j])
    {
      BehindIsSame(a, b, allocations[j].fragments, page, offset);
      PlacedStays(a, b, allocations[j].fragments, unique[j]);
    }
  }

  /** Both images agree on every payload byte. */
  ghost predicate SamePayload(a: Images, b: Images) {
    forall k :: 0 <= k < STORE_PAGES ==> a[k][..PAGE_DATA_SIZE] == b[k][..PAGE_DATA_SIZE]
  }

  lemma SliceOfPayload(page: seq<byte>, from: nat, to: nat)
    requires from <= to <= PAGE_DATA_SIZE <= |page|
    ensures page[from..to] == page[..PAGE_DATA_SIZE][from..to]
  {
  }

  lemma AllocationsStayUnderCrc(a: Images, b: Images, allocations: seq<Allocation>, unique: seq<seq<byte>>)
    requires AllAllocated(a, allocations, unique) && SamePayload(a, b)
    ensures AllAllocated(b, allocations, unique)
  {
    hide Placed;
    forall j | 0 <= j < |allocations|
      ensures Allocated(b, allocations[j], unique[j])
    {
      var fs := allocations[j].fragments;
      forall i | 0 <= i < |fs| && Shaped(fs[i])
        ensures SameOn(a, b, fs[i])
      {
        var k := fs[i].sector - FIRST_SECTOR;
        SliceOfPayload(a[k], fs[i].offset, fs[i].end);
        SliceOfPayload(b[k], fs[i].offset, fs[i].end);
      }
      PlacedStays(a, b, fs, unique[j]);
    }
  }

  lemma AllAllocatedSnoc(images: Images, allocations: seq<Allocation>, a: Allocation, unique: seq<seq<byte>>)
    requires AllAllocated(images, allocations, unique)
    requires |allocations| < |unique| && Allocated(images, a, unique[|allocations|])
    ensures AllAllocated(images, allocations + [a], unique)
  {
    hide Allocated;
  }

  lemma EachBehindSnoc(allocations: seq<Allocation>, a: Allocation, start: Cursor, end: Cursor)
    requires EachBehind(allocations, start.page, start.offset) && AllBehind(a.fragments, end.page, end.offset)
    requires start.page < end.page || (start.page == end.page && start.offset <= end.offset)
    ensures EachBehind(allocations + [a], end.page, end.offset)
  {
    hide AllBehind;
    forall j | 0 <= j < |allocations|
      ensures AllBehind((allocations + [a])[j].fragments, end.page, end.offset)
    {
      BehindFurther(allocations[j].fragments, start.page, start.offset, end.page, end.offset);
    }
  }

  lemma AllocatedFrom(images: Images, a: Allocation, start: Cursor, end: Cursor, bytecode: seq<byte>,
                      earlier: seq<Fragment>, source: nat)
    requires MacroPlaced(images, a, start, end, bytecode, earlier, source)
    ensures a.fragments != [] && Position(a.fragments[0]) == StartAfter(At(start), bytecode)
    ensures Allocated(images, a, bytecode) && AllBehind(a.fragments, end.page, end.offset)
  {
    hide AllWritten;
    hide Linked;
    hide TextFrom;
    hide Tight;
    hide Forced;
    hide Ordered;
    hide AllBehind;
    hide Accounted;
    hide Untouched;
    hide Clear;
    hide Frontier;
    hide StartAfter;
    BehindSuffix(earlier, a.fragments, end.page, end.offset);
  }

  /** Take a new allocation in. */
  lemma AllocationAdded(images: Images, after: Images, allocations: seq<Allocation>, a: Allocation,
                        unique: seq<seq<byte>>, start: Cursor, end: Cursor, source: nat)
    requires |allocations| < |unique|
    requires AllAllocated(images, allocations, unique) && EachBehind(allocations, start.page, start.offset)
    requires SameBefore(images, after, start.page, start.offset)
    requires start.page < end.page || (start.page == end.page && start.offset <= end.offset)
    requires MacroPlaced(after, a, start, end, unique[|allocations|], Fragments(allocations), source)
    requires InPlace(allocations, unique) && At(start) == Frontier(Fragments(allocations))
    ensures InPlace(allocations + [a], unique)
    ensures AllAllocated(after, allocations + [a], unique) && EachBehind(allocations + [a], end.page, end.offset)
    ensures Fragments(allocations + [a]) == Fragments(allocations) + a.fragments
  {
    hide Allocated;
    hide AllAllocated;
    hide EachBehind;
    hide AllBehind;
    hide SameBefore;
    hide MacroPlaced;
    hide Fragments;
    hide InPlace;
    hide StartAfter;
    AllocationsStay(images, after, allocations, unique, start.page, start.offset);
    FragmentsSnoc(allocations, a);
    AllocatedFrom(after, a, start, end, unique[|allocations|], Fragments(allocations), source);
    AllAllocatedSnoc(after, allocations, a, unique);
    EachBehindSnoc(allocations, a, start, end);
    InPlaceSnoc(allocations, a, unique);
  }

  // ---------------------------------------------------------------- the allocator

  /** `bytearray(b"\xFF" * SECTOR_SIZE)`. */
  method ErasedPage() returns (page: array<byte>)
    ensures fresh(page) && page.Length == SECTOR_SIZE && Sector.Erased(page[..])
  {
    page := new byte[SECTOR_SIZE](_ => 0xFF);
  }

  /** Fresh pages, every byte erased. */
  method ErasedPages() returns (pages: seq<array<byte>>)
    ensures ValidPages(pages) && |pages| == STORE_PAGES && Untouched(Contents(pages), 0, 0)
    ensures fresh(pages)
  {
    hide Untouched;
    hide Clear;
    hide Sector.Erased;
    var p0 := ErasedPage();
    var p1 := ErasedPage();
    var p2 := ErasedPage();
    var p3 := ErasedPage();
    var p4 := ErasedPage();
    var p5 := ErasedPage();
    var p6 := ErasedPage();
    var p7 := ErasedPage();
    pages := [p0, p1, p2, p3, p4, p5, p6, p7];
    ErasedIsUntouched(Contents(pages));
  }

  lemma AllClear(images: Images)
    requires Untouched(images, 0, 0)
    ensures Clear(images, [])
  {
    forall k: nat, o: nat {:trigger images[k][o]} | k < STORE_PAGES && o < PAGE_DATA_SIZE
      ensures images[k][o] == 0xFF
    {
      assert !Before(k, o, 0, 0);
    }
  }

  lemma ClearUnderCrc(before: Images, after: Images, fs: seq<Fragment>)
    requires Clear(before, fs) && SamePayload(before, after)
    ensures Clear(after, fs)
  {
    hide Covered;
    forall k: nat, o: nat {:trigger after[k][o]} | k < STORE_PAGES && o < PAGE_DATA_SIZE && !Covered(fs, k, o)
      ensures after[k][o] == 0xFF
    {
      assert after[k][..PAGE_DATA_SIZE][o] == before[k][..PAGE_DATA_SIZE][o];
    }
  }

  lemma ErasedIsUntouched(images: Images)
    requires forall k :: 0 <= k < STORE_PAGES ==> Sector.Erased(images[k])
    ensures Untouched(images, 0, 0)
  {
  }

  /** Store the checksum of every page in its last two bytes. */
  method AddChecksums(pages: seq<array<byte>>)
    requires |pages| == STORE_PAGES && ValidPages(pages)
    modifies pages
    ensures SamePayload(old(Contents(pages)), Contents(pages))
    ensures forall k :: 0 <= k < STORE_PAGES ==> Sector.SectorCrcOk(Contents(pages)[k])
  {
    hide Contents;
    for n := 0 to STORE_PAGES
      invariant SamePayload(old(Contents(pages)), Contents(pages))
      invariant forall k :: 0 <= k < n ==> Sector.SectorCrcOk(Contents(pages)[k])
    {
      ghost var before := Contents(pages);
      PageSlice(pages, n);
      WriteBytes(pages, n, PAGE_DATA_SIZE, PackBE(Sector.Checksum(pages[n][..PAGE_DATA_SIZE])));
      ChecksumWritten(before, n);
    }
  }

  lemma PageSlice(pages: seq<array<byte>>, k: nat)
    requires ValidPages(pages) && k < STORE_PAGES
    ensures pages[k][..PAGE_DATA_SIZE] == Contents(pages)[k][..PAGE_DATA_SIZE]
  {
    assert Contents(pages)[k] == pages[k][..];
  }

  lemma ChecksumWritten(images: Images, k: nat)
    requires k < STORE_PAGES
    ensures var after := Patched(images, k, PAGE_DATA_SIZE, PackBE(Sector.Checksum(images[k][..PAGE_DATA_SIZE])));
            SamePayload(images, after) && Sector.SectorCrcOk(after[k])
            && forall j :: 0 <= j < STORE_PAGES && j != k ==> after[j] == images[j]
  {
    var after := Patched(images, k, PAGE_DATA_SIZE, PackBE(Sector.Checksum(images[k][..PAGE_DATA_SIZE])));
    assert after[k][..PAGE_DATA_SIZE] == images[k][..PAGE_DATA_SIZE];
  }

  /** Checksums, and the figures of the finished store. */
  method FinishStore(pages: seq<array<byte>>, allocations: seq<Allocation>, unique: seq<seq<byte>>, cursor: Cursor)
    returns (store: MacroStore)
    requires |pages| == STORE_PAGES && ValidPages(pages) && |allocations| == |unique| && Tokenizable(unique)
    requires cursor.page < STORE_PAGES && cursor.offset <= PAGE_DATA_SIZE
    requires AllAllocated(Contents(pages), allocations, unique) && Ordered(Fragments(allocations))
    requires InPlace(allocations, unique)
    requires Untouched(Contents(pages), cursor.page, cursor.offset)
    requires Clear(Contents(pages), Fragments(allocations))
    requires Accounted(Fragments(allocations), TotalLength(unique), cursor)
    requires Frontier(Fragments(allocations)) == PAGE_DATA_SIZE * cursor.page + cursor.offset
    modifies pages
    ensures StoreDescribes(store, unique)
  {
    hide Contents;
    hide Ordered;
    hide AllAllocated;
    hide Untouched;
    hide Clear;
    hide Accounted;
    hide ValidPages;
    hide Frontier;
    hide StoreDescribes;
    hide Sector.SectorCrcOk;
    hide FreeTail;
    hide Tokenizable;
    hide InPlace;
    ghost var before := Contents(pages);
    AddChecksums(pages);
    AllocationsStayUnderCrc(before, Contents(pages), allocations, unique);
    var images := Snapshot(pages);
    var allocatedBytes := TotalSize(Fragments(allocations));
    var source := TotalLength(unique);
    store := MacroStore(images, allocations, source, allocatedBytes, allocatedBytes - source, cursor.waste,
                        GLOBAL_PAYLOAD_CAPACITY - allocatedBytes,
                        GLOBAL_PAYLOAD_CAPACITY - allocatedBytes - cursor.waste);
    TailIsFree(before, images, cursor.page, cursor.offset);
    ClearUnderCrc(before, images, Fragments(allocations));
    StoreIsDescribed(store, unique, cursor);
  }

  /** The loop over macros: those before `|allocations|` are placed, ending at `cursor`. */
  ghost predicate Packed(images: Images, allocations: seq<Allocation>, unique: seq<seq<byte>>, cursor: Cursor) {
    var fs := Fragments(allocations);
    && |allocations| <= |unique| && cursor.page < STORE_PAGES && cursor.offset <= PAGE_DATA_SIZE
    && (forall j :: 0 <= j < |allocations| ==> Tokenize(unique[j]).Ok?)
    && AllAllocated(images, allocations, unique) && EachBehind(allocations, cursor.page, cursor.offset)
    && InPlace(allocations, unique)
    && Ordered(fs) && AllBehind(fs, cursor.page, cursor.offset)
    && Untouched(images, cursor.page, cursor.offset) && Clear(images, fs)
    && Accounted(fs, TotalLength(unique[..|allocations|]), cursor)
    && Frontier(fs) == PAGE_DATA_SIZE * cursor.page + cursor.offset
    && (AllShort(unique) ==> Dense(TotalLength(unique[..|allocations|]), cursor))
  }

  lemma PackedFacts(images: Images, allocations: seq<Allocation>, unique: seq<seq<byte>>, cursor: Cursor)
    requires Packed(images, allocations, unique, cursor)
    ensures |allocations| <= |unique| && cursor.page < STORE_PAGES && cursor.offset <= PAGE_DATA_SIZE
    ensures forall j :: 0 <= j < |allocations| ==> Tokenize(unique[j]).Ok?
    ensures AllAllocated(images, allocations, unique) && InPlace(allocations, unique)
    ensures Ordered(Fragments(allocations)) && AllBehind(Fragments(allocations), cursor.page, cursor.offset)
    ensures Untouched(images, cursor.page, cursor.offset) && Clear(images, Fragments(allocations))
    ensures Accounted(Fragments(allocations), TotalLength(unique[..|allocations|]), cursor)
    ensures Frontier(Fragments(allocations)) == PAGE_DATA_SIZE * cursor.page + cursor.offset
    ensures AllShort(unique) ==> Dense(TotalLength(unique[..|allocations|]), cursor)
  {
  }

  lemma NothingPacked(images: Images, unique: seq<seq<byte>>)
    requires Untouched(images, 0, 0)
    ensures Packed(images, [], unique, Cursor(0, 0, 0))
  {
    hide Untouched;
    hide Clear;
    hide AllAllocated;
    hide EachBehind;
    hide Ordered;
    hide AllBehind;
    hide Accounted;
    hide Frontier;
    hide Dense;
    hide AllShort;
    hide Tokenize;
    hide InPlace;
    NothingYet();
    NothingPlaced(images, unique);
    assert unique[..0] == [] && Fragments([]) == [];
    assert Clear(images, []) by { AllClear(images); }
  }

  lemma PackOne(before: Images, after: Images, allocations: seq<Allocation>, unique: seq<seq<byte>>, cursor: Cursor,
                a: Allocation, end: Cursor)
    requires Packed(before, allocations, unique, cursor) && |allocations| < |unique|
    requires Tokenize(unique[|allocations|]).Ok?
    requires SameBefore(before, after, cursor.page, cursor.offset)
    requires cursor.page < end.page || (cursor.page == end.page && cursor.offset <= end.offset)
    requires MacroPlaced(after, a, cursor, end, unique[|allocations|], Fragments(allocations),
                         TotalLength(unique[..|allocations|]))
    requires AllShort(unique) ==> Dense(TotalLength(unique[..|allocations|]) + |unique[|allocations|]|, end)
    ensures Packed(after, allocations + [a], unique, end)
  {
    hide Ordered;
    hide AllBehind;
    hide AllAllocated;
    hide EachBehind;
    hide MacroPlaced;
    hide Untouched;
    hide Clear;
    hide Accounted;
    hide SameBefore;
    hide Frontier;
    hide Fragments;
    hide Tokenize;
    hide AllShort;
    hide Dense;
    hide InPlace;
    var n := |allocations|;
    assert unique[..n + 1][..n] == unique[..n];
    AllocationAdded(before, after, allocations, a, unique, cursor, end, TotalLength(unique[..n]));
    PlacedFacts(after, a, cursor, end, unique[n], Fragments(allocations), TotalLength(unique[..n]));
  }

  /** One turn of the loop over macros. */
  method PlaceNext(pages: seq<array<byte>>, allocations: seq<Allocation>, unique: seq<seq<byte>>, cursor: Cursor)
    returns (r: Result<(Allocation, Cursor), AllocError>)
    requires |pages| == STORE_PAGES && ValidPages(pages) && |allocations| < |unique|
    requires Packed(Contents(pages), allocations, unique, cursor)
    modifies pages
    ensures r.Ok? ==> Packed(Contents(pages), allocations + [r.value.0], unique, r.value.1)
    ensures r.Err? && r.error.BadMacro? ==> Tokenize(unique[|allocations|]) == Err(r.error.reason)
    ensures r.Err? && !r.error.BadMacro? ==>
              Tokenize(unique[|allocations|]).Ok? && NoRoom(At(cursor), unique[|allocations|])
    ensures r.Err? && Tokenize(unique[|allocations|]).Ok? && AllShort(unique) ==> TotalLength(unique) > SAFE_CAPACITY
  {
    hide Contents;
    hide Ordered;
    hide AllBehind;
    hide AllAllocated;
    hide EachBehind;
    hide MacroPlaced;
    hide Untouched;
    hide Clear;
    hide Accounted;
    hide ValidPages;
    hide SameBefore;
    hide Frontier;
    hide Fragments;
    hide TokenSize;
    hide Split;
    hide Dense;
    hide AllShort;
    hide ShortTokens;
    hide Packed;
    hide InPlace;
    hide NoRoom;
    var index := |allocations|;
    var tokens: seq<Token>;
    var tokenized := TokenizeMacro(unique[index]);
    match tokenized {
      case Err(e) => return Err(BadMacro(e));
      case Ok(ts) => tokens := ts;
    }
    TokenizeMeans(unique[index], tokens);
    ShortAt(unique, index);
    assert unique[..index + 1][..index] == unique[..index];
    TotalLengthMonotone(unique, index + 1);
    ghost var before, source := Contents(pages), TotalLength(unique[..index]);
    PackedFacts(before, allocations, unique, cursor);
    r := PlaceMacro(pages, cursor, tokens, unique[index], Fragments(allocations), source);
    if r.Ok? {
      PackOne(before, Contents(pages), allocations, unique, cursor, r.value.0, r.value.1);
    }
  }

  /** The macros before the last one are placed and in place, and for the last one of these
      there is no room. */
  ghost predicate OutOfRoom(images: Images, allocations: seq<Allocation>, unique: seq<seq<byte>>) {
    && |allocations| < |unique| && Tokenizable(unique[..|allocations| + 1])
    && AllAllocated(images, allocations, unique) && InPlace(allocations, unique) && Ordered(Fragments(allocations))
    && NoRoom(Frontier(Fragments(allocations)), unique[|allocations|])
  }

  ghost predicate RanOut(unique: seq<seq<byte>>) {
    exists images, allocations :: OutOfRoom(images, allocations, unique)
  }

  /** Some store holds these macros as the placement rules demand. */
  ghost predicate Packable(unique: seq<seq<byte>>) {
    exists store :: StoreDescribes(store, unique)
  }

  /** The placement rules leave no choice: two lists of allocations for the same macros agree
      as far as both go. */
  lemma {:induction false} SameAllocations(a: Images, left: seq<Allocation>, b: Images, right: seq<Allocation>,
                                           unique: seq<seq<byte>>, n: nat)
    requires AllAllocated(a, left, unique) && InPlace(left, unique)
    requires AllAllocated(b, right, unique) && InPlace(right, unique)
    requires n <= |left| && n <= |right|
    ensures left[..n] == right[..n]
  {
    hide Placed;
    hide Position;
    hide StartAfter;
    hide Frontier;
    hide Fragments;
    if n > 0 {
      var i := n - 1;
      SameAllocations(a, left, b, right, unique, i);
      assert StartsInPlace(left, unique, i) && StartsInPlace(right, unique, i);
      assert Allocated(a, left[i], unique[i]) && Allocated(b, right[i], unique[i]);
      LayoutIsUnique(a, left[i].fragments, b, right[i].fragments, unique[i]);
      assert left[..n] == left[..i] + [left[i]] && right[..n] == right[..i] + [right[i]];
    }
  }

  /** MAIN RESULT. The evidence for a refusal is final: macros that ran out of room once fit
      no store, so a list is refused only if it cannot be packed. */
  lemma RefusalIsFinal(unique: seq<seq<byte>>)
    requires RanOut(unique)
    ensures !Packable(unique)
  {
    hide AllAllocated;
    hide InPlace;
    hide NoRoom;
    hide Ordered;
    hide Frontier;
    hide FreeTail;
    hide Clear;
    var images, allocations :| OutOfRoom(images, allocations, unique);
    forall store | StoreDescribes(store, unique)
      ensures false
    {
      NoPlaceFor(images, allocations, store.images, store.allocations, unique);
    }
  }

  lemma NoPlaceFor(images: Images, allocations: seq<Allocation>, full: Images, all: seq<Allocation>,
                   unique: seq<seq<byte>>)
    requires OutOfRoom(images, allocations, unique)
    requires AllAllocated(full, all, unique) && InPlace(all, unique)
    ensures |all| < |unique|
  {
    hide Placed;
    hide Position;
    hide StartAfter;
    hide Frontier;
    hide Fragments;
    hide NoRoom;
    hide Tokenizable;
    var n := |allocations|;
    if n < |all| {
      SameAllocations(images, allocations, full, all, unique, n);
      assert allocations[..n] == allocations;
      assert StartsInPlace(all, unique, n) && Allocated(full, all[n], unique[n]);
      NoRoomIsFinal(Frontier(Fragments(all[..n])), full, all[n].fragments, unique[n]);
    }
  }

  lemma {:induction false} OneOfTheFragments(allocations: seq<Allocation>, i: nat) returns (j: nat, n: nat)
    requires i < |Fragments(allocations)|
    ensures j < |allocations| && n < |allocations[j].fragments|
    ensures Fragments(allocations)[i] == allocations[j].fragments[n]
  {
    var init := allocations[..|allocations| - 1];
    if i < |Fragments(init)| {
      j, n := OneOfTheFragments(init, i);
    } else {
      j, n := |allocations| - 1, i - |Fragments(init)|;
    }
  }

  /** The bytes of a page are those of its fragments, erased bytes and the checksum. */
  lemma PagesAgree(a: Images, b: Images, allocations: seq<Allocation>, unique: seq<seq<byte>>)
    requires AllAllocated(a, allocations, unique) && AllAllocated(b, allocations, unique)
    requires Clear(a, Fragments(allocations)) && Clear(b, Fragments(allocations))
    ensures SamePayload(a, b)
  {
    hide Placed;
    hide Fragments;
    var fs := Fragments(allocations);
    forall k: nat, o: nat | k < STORE_PAGES && o < PAGE_DATA_SIZE
      ensures a[k][o] == b[k][o]
    {
      if Covered(fs, k, o) {
        var i :| 0 <= i < |fs| && fs[i].sector == FIRST_SECTOR + k && fs[i].offset <= o < fs[i].end;
        var j, n := OneOfTheFragments(allocations, i);
        assert Allocated(a, allocations[j], unique[j]) && Allocated(b, allocations[j], unique[j]);
        SameBytes(a, b, allocations[j].fragments, unique[j]);
        PlacedIsShaped(a, allocations[j].fragments, unique[j], n);
        assert a[k][fs[i].offset..fs[i].end][o - fs[i].offset] == b[k][fs[i].offset..fs[i].end][o - fs[i].offset];
      }
    }
  }

  lemma PlacedIsShaped(images: Images, fs: seq<Fragment>, bytecode: seq<byte>, n: nat)
    requires Placed(images, fs, bytecode) && n < |fs|
    ensures Shaped(fs[n])
  {
    hide Payload;
    hide Split;
    assert Written(images, fs[n]);
  }

  lemma SamePages(a: Images, b: Images)
    requires SamePayload(a, b)
    requires forall k :: 0 <= k < STORE_PAGES ==> Sector.SectorCrcOk(a[k]) && Sector.SectorCrcOk(b[k])
    ensures a == b
  {
    hide Sector.Checksum;
    forall k: nat | k < STORE_PAGES
      ensures a[k] == b[k]
    {
      assert Sector.SectorCrcOk(a[k]) && Sector.SectorCrcOk(b[k]);
      assert a[k] == a[k][..PAGE_DATA_SIZE] + [a[k][253], a[k][254]];
      assert b[k] == b[k][..PAGE_DATA_SIZE] + [b[k][253], b[k][254]];
    }
  }

  /** MAIN RESULT. The store is determined by the macros, to the last byte. */
  lemma StoreIsUnique(left: MacroStore, right: MacroStore, unique: seq<seq<byte>>)
    requires StoreDescribes(left, unique) && StoreDescribes(right, unique)
    ensures left == right
  {
    hide AllAllocated;
    hide InPlace;
    hide Ordered;
    hide Frontier;
    hide FreeTail;
    hide Clear;
    hide Fragments;
    hide Tokenizable;
    hide Sector.SectorCrcOk;
    hide SamePayload;
    SameAllocations(left.images, left.allocations, right.images, right.allocations, unique, |unique|);
    assert left.allocations == left.allocations[..|unique|] == right.allocations[..|unique|] == right.allocations;
    PagesAgree(left.images, right.images, left.allocations, unique);
    SamePages(left.images, right.images);
  }

  lemma UntokenizableIsUnpackable(unique: seq<seq<byte>>, j: nat)
    requires j < |unique| && Tokenize(unique[j]).Err?
    ensures !Packable(unique)
  {
    hide Tokenize;
  }

  /** `codec.allocate_unique_macros`. */
  method AllocateUniqueMacros(unique: seq<seq<byte>>) returns (r: Result<MacroStore, AllocError>)
    ensures r.Ok? ==> StoreDescribes(r.value, unique)
    // A refusal is the first macro the tokenizer refuses, or comes with the evidence.
    ensures r.Err? && r.error.BadMacro? ==>
              exists j :: 0 <= j < |unique| && Tokenizable(unique[..j]) && Tokenize(unique[j]) == Err(r.error.reason)
    ensures r.Err? && !r.error.BadMacro? ==> RanOut(unique)
    ensures r.Ok? <==> Packable(unique)
    ensures Tokenizable(unique) && AllShort(unique) && TotalLength(unique) <= SAFE_CAPACITY ==> r.Ok?
  {
    hide Contents;
    hide Ordered;
    hide AllBehind;
    hide AllAllocated;
    hide Untouched;
    hide Clear;
    hide Accounted;
    hide ValidPages;
    hide Frontier;
    hide Fragments;
    hide StoreDescribes;
    hide Tokenize;
    hide AllShort;
    hide TotalLength;
    hide Packed;
    hide InPlace;
    hide NoRoom;
    var pages := ErasedPages();
    var cursor := Cursor(0, 0, 0);
    var allocations: seq<Allocation> := [];
    NothingPacked(Contents(pages), unique);
    for index := 0 to |unique|
      invariant fresh(pages) && |allocations| == index
      invariant Packed(Contents(pages), allocations, unique, cursor)
    {
      ghost var now := Contents(pages);
      var placed := PlaceNext(pages, allocations, unique, cursor);
      match placed {
        case Err(e) =>
          PackedFacts(now, allocations, unique, cursor);
          RefusedAt(now, allocations, unique, cursor);
          if e.BadMacro? {
            UntokenizableIsUnpackable(unique, index);
          } else {
            RefusalIsFinal(unique);
          }
          return Err(e);
        case Ok((a, end)) => allocations, cursor := allocations + [a], end;
      }
    }
    PackedFacts(Contents(pages), allocations, unique, cursor);
    assert unique[..|allocations|] == unique;
    var store := FinishStore(pages, allocations, unique, cursor);
    r := Ok(store);
  }

  lemma RefusedAt(images: Images, allocations: seq<Allocation>, unique: seq<seq<byte>>, cursor: Cursor)
    requires |allocations| < |unique| && forall j :: 0 <= j < |allocations| ==> Tokenize(unique[j]).Ok?
    requires AllAllocated(images, allocations, unique) && InPlace(allocations, unique)
    requires Ordered(Fragments(allocations)) && Frontier(Fragments(allocations)) == At(cursor)
    ensures Tokenizable(unique[..|allocations|])
    ensures Tokenize(unique[|allocations|]).Ok? && NoRoom(At(cursor), unique[|allocations|]) ==> RanOut(unique)
  {
    hide Tokenize;
    hide AllAllocated;
    hide InPlace;
    hide Ordered;
    hide Frontier;
    hide Fragments;
    hide NoRoom;
    if Tokenize(unique[|allocations|]).Ok? && NoRoom(At(cursor), unique[|allocations|]) {
      assert OutOfRoom(images, allocations, unique);
    }
  }

  lemma StoreIsDescribed(store: MacroStore, unique: seq<seq<byte>>, cursor: Cursor)
    requires |store.allocations| == |unique| && Tokenizable(unique)
    requires AllAllocated(store.images, store.allocations, unique) && InPlace(store.allocations, unique)
    requires forall k :: 0 <= k < STORE_PAGES ==> Sector.SectorCrcOk(store.images[k])
    requires Ordered(Fragments(store.allocations))
    requires cursor.page < STORE_PAGES && cursor.offset <= PAGE_DATA_SIZE
    requires Accounted(Fragments(store.allocations), TotalLength(unique), cursor)
    requires Frontier(Fragments(store.allocations)) == PAGE_DATA_SIZE * cursor.page + cursor.offset
    requires store.sourceBytes == TotalLength(unique) && store.allocatedBytes == TotalSize(Fragments(store.allocations))
    requires store.jumpOverhead == store.allocatedBytes - store.sourceBytes && store.fragmentationWaste == cursor.waste
    requires store.rawFreeBytes == GLOBAL_PAYLOAD_CAPACITY - store.allocatedBytes
    requires store.usableFreeBytes == GLOBAL_PAYLOAD_CAPACITY - store.allocatedBytes - cursor.waste
    requires FreeTail(store.images, PAGE_DATA_SIZE * cursor.page + cursor.offset)
    requires Clear(store.images, Fragments(store.allocations))
    ensures StoreDescribes(store, unique)
  {
    hide AllAllocated;
    hide Ordered;
    hide FreeTail;
    hide Clear;
    hide Fragments;
    hide Frontier;
    hide TotalSize;
    hide JumpCount;
    hide Sector.SectorCrcOk;
    hide Tokenizable;
    hide InPlace;
  }

  method Snapshot(pages: seq<array<byte>>) returns (images: Images)
    requires |pages| == STORE_PAGES && ValidPages(pages)
    ensures images == Contents(pages)
  {
    images := [pages[0][..], pages[1][..], pages[2][..], pages[3][..],
               pages[4][..], pages[5][..], pages[6][..], pages[7][..]];
  }

  lemma ShortAt(unique: seq<seq<byte>>, j: nat)
    requires j < |unique| && Tokenize(unique[j]).Ok?
    ensures AllShort(unique) ==> ShortTokens(Tokenize(unique[j]).value)
  {
  }

  lemma NothingYet()
    ensures Accounted([], 0, Cursor(0, 0, 0)) && Frontier([]) == 0 && Dense(0, Cursor(0, 0, 0))
  {}

  lemma NothingPlaced(images: Images, unique: seq<seq<byte>>)
    ensures EachBehind([], 0, 0) && AllAllocated(images, [], unique) && Ordered([]) && AllBehind([], 0, 0)
    ensures InPlace([], unique)
  {}

  lemma PlacedFacts(images: Images, a: Allocation, start: Cursor, end: Cursor, bytecode: seq<byte>,
                    earlier: seq<Fragment>, source: nat)
    requires MacroPlaced(images, a, start, end, bytecode, earlier, source)
    ensures end.page < STORE_PAGES && end.offset <= PAGE_DATA_SIZE
    ensures Ordered(earlier + a.fragments) && AllBehind(earlier + a.fragments, end.page, end.offset)
    ensures Untouched(images, end.page, end.offset) && Clear(images, earlier + a.fragments)
    ensures Accounted(earlier + a.fragments, source + |bytecode|, end)
    ensures Frontier(earlier + a.fragments) == PAGE_DATA_SIZE * end.page + end.offset
  {
    hide Placed;
    hide Ordered;
    hide AllBehind;
    hide Accounted;
    hide Untouched;
    hide Clear;
    hide Frontier;
    hide StartAfter;
  }

  lemma TailIsFree(before: Images, after: Images, page: nat, offset: nat)
    requires Untouched(before, page, offset) && SamePayload(before, after) && offset <= PAGE_DATA_SIZE
    ensures FreeTail(after, PAGE_DATA_SIZE * page + offset)
  {
    forall k: nat, o: nat
      | k < STORE_PAGES && o < PAGE_DATA_SIZE && PAGE_DATA_SIZE * k + o >= PAGE_DATA_SIZE * page + offset
      ensures after[k][o] == 0xFF
    {
      assert !Before(k, o, page, offset);
      assert after[k][..PAGE_DATA_SIZE][o] == before[k][..PAGE_DATA_SIZE][o];
    }
  }
}
