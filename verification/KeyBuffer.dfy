/** Chinux's keyboard ring: characters typed and deleted since the last clear, and the read that hands the line over. */
module KeyBuffer {
  import opened Base

  const BUFFER_SIZE: nat := 256

  datatype Key = Add(c: char) | Delete

  /** The characters that survive: a full line takes no more, and an empty one has nothing to delete. */
  function Press(line: string, k: Key): string {
    match k
    case Add(c) => if |line| < BUFFER_SIZE then line + [c] else line
    case Delete => if line == [] then line else line[..|line|-1]
  }

  function Survivors(keys: seq<Key>): (line: string)
    ensures |line| <= BUFFER_SIZE
  {
    if keys == [] then [] else Press(Survivors(keys[..|keys|-1]), keys[|keys|-1])
  }

  /** The keystrokes that type a text. */
  function Typed(text: string): (keys: seq<Key>)
    ensures |keys| == |text|
  {
    seq(|text|, i requires 0 <= i < |text| => Add(text[i]))
  }

  /** A text typed is the line, as far as it fits: its first 256 characters. */
  lemma {:induction false} TextTypedIsTheLine(text: string)
    ensures Survivors(Typed(text)) == text[..if |text| <= 256 then |text| else 256]
  {
    if text != [] {
      var less := text[..|text|-1];
      assert Typed(text)[..|text|-1] == Typed(less);
      TextTypedIsTheLine(less);
    }
  }

  /** A deletion takes back the last character typed. */
  lemma DeleteUndoesAdd(keys: seq<Key>, c: char)
    requires |Survivors(keys)| < BUFFER_SIZE
    ensures Survivors(keys + [Add(c), Delete]) == Survivors(keys)
  {
    var all := keys + [Add(c), Delete];
    assert all[..|all|-1] == keys + [Add(c)];
    assert (keys + [Add(c)])[..|keys|] == keys;
  }

  /** The end test is met exactly at the end of a line that does not wrap, or at the start of a full one. */
  lemma StopsAt(start: nat, size: nat, actual: nat, k: nat)
    requires actual < BUFFER_SIZE && start <= BUFFER_SIZE && 0 < size <= BUFFER_SIZE
    requires (start + size) % BUFFER_SIZE == (actual + 1) % BUFFER_SIZE
    ensures actual == start + k - 1 || (actual == BUFFER_SIZE - 1 && start + k == 0)
      <==> (k == size && start + size <= BUFFER_SIZE) || (k == 0 && size == BUFFER_SIZE)
  {
  }

  /** The `size` characters of a ring from `first` on. */
  ghost function Slice(line: seq<char>, first: nat, size: nat): (t: string)
    requires |line| == BUFFER_SIZE
    ensures |t| == size && forall k :: 0 <= k < size ==> t[k] == line[(first + k) % BUFFER_SIZE]
  {
    seq(size, k requires 0 <= k < size => line[(first + k) % BUFFER_SIZE])
  }

  lemma PlacesDiffer(first: nat, j: nat, k: nat)
    requires j < k < j + BUFFER_SIZE
    ensures (first + j) % BUFFER_SIZE != (first + k) % BUFFER_SIZE
  {
  }

  /** Writing at the end of a ring that is not full appends. */
  lemma SliceGrows(line: seq<char>, first: nat, size: nat, c: char)
    requires |line| == BUFFER_SIZE && size < BUFFER_SIZE
    ensures Slice(line[(first + size) % BUFFER_SIZE := c], first, size + 1) == Slice(line, first, size) + [c]
  {
    var end := (first + size) % BUFFER_SIZE;
    var grown := line[end := c];
    forall k | 0 <= k < size ensures Slice(grown, first, size + 1)[k] == Slice(line, first, size)[k] {
      PlacesDiffer(first, k, size);
    }
  }

  lemma SliceShrinks(line: seq<char>, first: nat, size: nat)
    requires |line| == BUFFER_SIZE && size > 0
    ensures Slice(line, first, size - 1) == Slice(line, first, size)[..size-1]
  {
  }

  lemma SamePlaceNext(a: nat, b: nat)
    requires a % BUFFER_SIZE == b % BUFFER_SIZE
    ensures (a + 1) % BUFFER_SIZE == (b + 1) % BUFFER_SIZE
  {
  }

  lemma SamePlaceBefore(a: nat, b: nat)
    requires a > 0 && b > 0 && a % BUFFER_SIZE == b % BUFFER_SIZE
    ensures (a - 1) % BUFFER_SIZE == (b - 1) % BUFFER_SIZE
  {
  }

  /** The last place written moves on with the end of the line. */
  lemma EndMovesOn(first: nat, size: nat, actual: nat)
    requires actual < BUFFER_SIZE && (first + size) % BUFFER_SIZE == (actual + 1) % BUFFER_SIZE
    ensures (first + size + 1) % BUFFER_SIZE == ((actual + 1) % BUFFER_SIZE + 1) % BUFFER_SIZE
  {
    SamePlaceNext(first + size, (actual + 1) % BUFFER_SIZE);
  }

  /** And back with it. */
  lemma EndMovesBack(first: nat, size: nat, actual: nat)
    requires actual < BUFFER_SIZE && (first + size) % BUFFER_SIZE == (actual + 1) % BUFFER_SIZE && size > 0
    ensures var last := if actual == 0 then BUFFER_SIZE - 1 else actual - 1;
      (first + size - 1) % BUFFER_SIZE == (last + 1) % BUFFER_SIZE
  {
    SamePlaceBefore(first + size, actual + 1);
    assert actual % BUFFER_SIZE == actual;
  }

  class LineBuffer {
    const line: array<char>
    var actual: nat
    var first: nat
    var size: nat

    /** No character has been read since the last clear. */
    ghost predicate Fresh()
      reads this
    {
      && line.Length == BUFFER_SIZE && actual < BUFFER_SIZE && first <= BUFFER_SIZE && size <= BUFFER_SIZE
      && (first + size) % BUFFER_SIZE == (actual + 1) % BUFFER_SIZE
    }

    ghost function Text(): (t: string)
      requires line.Length == BUFFER_SIZE
      reads this, line
    {
      Slice(line[..], first, size)
    }

    /** startTerminal */
    constructor ()
      ensures Fresh() && first == 0 && Text() == Survivors([]) && fresh(line)
    {
      line := new char[BUFFER_SIZE];
      actual, first, size := BUFFER_SIZE - 1, 0, 0;
    }

    /** clearTerminalBuffer_in_kernel: the modulo binds to the one, so the start may be one past the last place. */
    method Clear()
      requires line.Length == BUFFER_SIZE && actual < BUFFER_SIZE
      modifies this`first, this`size
      ensures Fresh() && first == actual + 1 && Text() == Survivors([])
    {
      first := actual + 1 % BUFFER_SIZE;
      size := 0;
    }

    /** addCharToBuff */
    method AddChar(c: char) returns (added: bool)
      requires Fresh()
      modifies this`actual, this`size, line
      ensures Fresh() && Text() == Press(old(Text()), Add(c)) && added == (old(size) < BUFFER_SIZE)
    {
      if size < BUFFER_SIZE {
        ghost var was := line[..];
        SliceGrows(was, first, size, c);
        EndMovesOn(first, size, actual);
        actual := actual + 1;
        line[actual % BUFFER_SIZE] := c;
        size := size + 1;
        actual := actual % BUFFER_SIZE;
        assert line[..] == was[actual := c];
        return true;
      }
      return false;
    }

    /** deleteCharFromBuff */
    method DeleteChar()
      requires Fresh()
      modifies this`actual, this`size
      ensures Fresh() && Text() == Press(old(Text()), Delete)
    {
      if size != 0 {
        SliceShrinks(line[..], first, size);
        EndMovesBack(first, size, actual);
        if actual == 0 {
          actual := BUFFER_SIZE - 1;
        } else {
          actual := actual - 1;
        }
        size := size - 1;
      }
    }

    /** Keys typed one after another. */
    method Type(keys: seq<Key>)
      requires Fresh() && size == 0
      modifies this`actual, this`size, line
      ensures Fresh() && Text() == Survivors(keys)
    {
      for i := 0 to |keys|
        invariant Fresh() && Text() == Survivors(keys[..i])
      {
        assert keys[..i+1][..i] == keys[..i];
        match keys[i]
        case Add(c) => var added := AddChar(c);
        case Delete => DeleteChar();
      }
      assert keys[..|keys|] == keys;
    }

    /** readKeyboard: the characters handed over are those of the line, as long as no more are asked for. */
    method ReadKeyboard(count: nat) returns (buffer: string)
      requires Fresh()
      modifies this`first
      ensures size == 0 ==> buffer == []
      ensures 0 < size && count <= size ==> buffer == old(Text())[..count]
      ensures 0 < size < count ==> (buffer == old(Text()) <==> old(first) + size <= BUFFER_SIZE)
    {
      buffer := [];
      if size != 0 {
        var flag := size < BUFFER_SIZE;
        ghost var start, text := first, Text();
        while |buffer| < count
          invariant first == start + |buffer| && |buffer| <= count
          invariant size == BUFFER_SIZE && buffer == [] <==> !flag
          invariant |buffer| > size ==> start + size > BUFFER_SIZE
          invariant forall k :: 0 <= k < |buffer| ==> buffer[k] == line[(start + k) % BUFFER_SIZE]
        {
          StopsAt(start, size, actual, |buffer|);
          if (actual == first - 1 || (actual == BUFFER_SIZE - 1 && first == 0)) && flag {
            break;
          }
          flag := true;
          buffer := buffer + [line[first % BUFFER_SIZE]];
          first := first + 1;
        }
      }
    }
  }

  lemma ShortTextIsTheLine(text: string)
    requires |text| <= 256
    ensures Survivors(Typed(text)) == text
  {
    TextTypedIsTheLine(text);
    assert text[..|text|] == text;
  }

  /** Inputs for which more than the line is handed over: a line that wraps, and one character more asked for. */
  method WrappedLineOverrun(first: string, second: string) returns (buffer: string)
    requires |first| == 200 && |second| == 100
    ensures buffer != second
  {
    var b := new LineBuffer();
    ShortTextIsTheLine(first);
    b.Type(Typed(first));
    assert b.size == 200;
    b.Clear();
    assert b.first == 200;
    ShortTextIsTheLine(second);
    b.Type(Typed(second));
    assert b.Text() == second && b.size == 100;
    buffer := b.ReadKeyboard(101);
  }
}
