/**
 * The menu layout of the bot (`_make_keyboard`): buttons in rows of
 * `columns`, in input order, plus an optional "Volver" (back) button that
 * joins a short last row or opens a row of its own. Buttons are
 * (text, callback) pairs; the markup object of the library is the grid.
 */
module Keyboard {
  import opened Wrappers

  datatype Button = Button(text: string, callback: string)

  const VolverText: string := "Volver"

  /** The buttons of paired names and callbacks. */
  function Buttons(names: seq<string>, callbacks: seq<string>): (b: seq<Button>)
    requires |names| == |callbacks|
  {
    seq(|names|, k requires 0 <= k < |names| => Button(names[k], callbacks[k]))
  }

  /** Reference layout: consecutive runs of `columns` buttons, the last run possibly shorter. */
  function Chunks(b: seq<Button>, columns: nat): seq<seq<Button>>
    requires b != [] ==> columns >= 1
    decreases |b|
  {
    if b == [] then []
    else if |b| <= columns then [b]
    else [b[..columns]] + Chunks(b[columns..], columns)
  }

  /** The buttons of a grid, row after row. */
  function Flatten<T>(g: seq<seq<T>>): seq<T>
  {
    if g == [] then [] else g[0] + Flatten(g[1..])
  }

  /** The back button: in the last row when it has room, else in a row of its own. */
  function PlaceVolver(g: seq<seq<Button>>, columns: nat, v: Button): seq<seq<Button>>
    requires g != []
  {
    if |g[|g| - 1]| < columns then g[..|g| - 1] + [g[|g| - 1] + [v]] else g + [[v]]
  }

  lemma {:induction false} FlattenSnoc<T>(g: seq<seq<T>>, r: seq<T>)
    ensures Flatten(g + [r]) == Flatten(g) + r
    decreases |g|
  {
    if g == [] {
      assert [r][1..] == [];
    } else {
      assert (g + [r])[1..] == g[1..] + [r];
      FlattenSnoc(g[1..], r);
    }
  }

  lemma {:induction false} MulAtLeast(a: int, c: int)
    requires a >= 1 && c >= 0
    ensures a * c >= c
    decreases a
  {
    if a > 1 {
      MulAtLeast(a - 1, c);
      assert a * c == (a - 1) * c + c;
    }
  }

  /** Euclidean quotient and remainder are unique. */
  lemma DivUnique(n: int, c: int, q: int, r: int)
    requires c >= 1 && 0 <= r < c && n == q * c + r
    ensures n / c == q && n % c == r
  {
    var q0, r0 := n / c, n % c;
    assert n == q0 * c + r0;
    if q > q0 {
      MulAtLeast(q - q0, c);
    } else if q < q0 {
      MulAtLeast(q0 - q, c);
    }
  }

  /** Taking `c` away lowers the quotient by one and keeps the remainder. */
  lemma DivModStep(n: nat, c: nat)
    requires 1 <= c <= n
    ensures (n - c) % c == n % c && (n - c) / c == n / c - 1
  {
    var q, r := n / c, n % c;
    assert n == q * c + r;
    assert n - c == (q - 1) * c + r;
    DivUnique(n - c, c, q - 1, r);
  }

  lemma DivModSmall(n: nat, c: nat)
    requires n < c
    ensures n % c == n && n / c == 0
  {
    DivUnique(n, c, 0, n);
  }

  /** The layout keeps every button, in input order. */
  lemma {:induction false} FlattenChunks(b: seq<Button>, columns: nat)
    requires columns >= 1
    ensures Flatten(Chunks(b, columns)) == b
    decreases |b|
  {
    if |b| > columns {
      var g := Chunks(b, columns);
      assert g[1..] == Chunks(b[columns..], columns);
      FlattenChunks(b[columns..], columns);
      assert b == b[..columns] + b[columns..];
    } else if b != [] {
      assert Chunks(b, columns)[1..] == [];
    }
  }

  /**
   * Every row but the last has exactly `columns` buttons and the last has one
   * to `columns`; there are ceil(n / columns) rows, and the last row is full
   * exactly when `columns` divides the number of buttons.
   */
  lemma {:induction false} ChunkSizes(b: seq<Button>, columns: nat)
    requires columns >= 1
    ensures var g := Chunks(b, columns);
            && (forall k :: 0 <= k < |g| - 1 ==> |g[k]| == columns)
            && (g == [] <==> b == [])
            && (g != [] ==> 1 <= |g[|g| - 1]| <= columns)
            && (g != [] ==> (|g[|g| - 1]| == columns <==> |b| % columns == 0))
            && (|b| % columns == 0 ==> |g| == |b| / columns)
            && (|b| % columns != 0 ==> |g| == |b| / columns + 1)
    decreases |b|
  {
    var g := Chunks(b, columns);
    if |b| > columns {
      var rest := b[columns..];
      ChunkSizes(rest, columns);
      DivModStep(|b|, columns);
      assert g == [b[..columns]] + Chunks(rest, columns);
    } else if |b| == columns {
      assert |b| % columns == 0 && |b| / columns == 1 by {
        DivModStep(|b|, columns);
      }
    } else {
      DivModSmall(|b|, columns);
    }
  }

  /** Adding one button: it opens a row when the last row is full, else joins it. */
  lemma {:induction false} ChunksSnoc(b: seq<Button>, x: Button, columns: nat)
    requires columns >= 1
    ensures var g := Chunks(b, columns);
            && (|b| % columns == 0 ==> Chunks(b + [x], columns) == g + [[x]])
            && (|b| % columns != 0 ==> g != [] && Chunks(b + [x], columns) == g[|g| - 1 := g[|g| - 1] + [x]])
    decreases |b|
  {
    var g := Chunks(b, columns);
    if |b| > columns {
      var rest := b[columns..];
      var g' := Chunks(rest, columns);
      assert (b + [x])[..columns] == b[..columns];
      assert (b + [x])[columns..] == rest + [x];
      assert Chunks(b + [x], columns) == [b[..columns]] + Chunks(rest + [x], columns);
      assert g == [b[..columns]] + g';
      ChunksSnoc(rest, x, columns);
      DivModStep(|b|, columns);
      if |b| % columns != 0 {
        assert g'[|g'| - 1 := g'[|g'| - 1] + [x]] == g'[..|g'| - 1] + [g'[|g'| - 1] + [x]];
        assert g[|g| - 1 := g[|g| - 1] + [x]] == [b[..columns]] + g'[..|g'| - 1] + [g'[|g'| - 1] + [x]];
      }
    } else if |b| == columns {
      DivModStep(|b|, columns);
      assert (b + [x])[..columns] == b;
      assert (b + [x])[columns..] == [x];
    } else {
      DivModSmall(|b|, columns);
      if b == [] {
        assert b + [x] == [x];
      }
    }
  }

  /** With one column every button is a row of its own. */
  lemma {:induction false} ChunksOfOne(b: seq<Button>)
    ensures Chunks(b, 1) == seq(|b|, k requires 0 <= k < |b| => [b[k]])
    decreases |b|
  {
    if |b| > 1 {
      ChunksOfOne(b[1..]);
      assert b[..1] == [b[0]];
      assert forall k :: 1 <= k < |b| ==> b[k] == b[1..][k - 1];
    } else if |b| == 1 {
      assert b == [b[0]];
    }
  }

  /**
   * With a back button the layout holds every button and then "Volver", one
   * more than the buttons: it joins the last row when `columns` does not
   * divide the number of buttons, else it is a row of its own.
   */
  lemma VolverPlacement(b: seq<Button>, columns: nat, v: Button)
    requires columns >= 1 && b != []
    ensures var g := Chunks(b, columns);
            var h := PlaceVolver(g, columns, v);
            && Flatten(h) == b + [v]
            && (|b| % columns != 0 ==> |h| == |g| && h[..|h| - 1] == g[..|g| - 1] && h[|h| - 1] == g[|g| - 1] + [v])
            && (|b| % columns == 0 ==> h == g + [[v]])
  {
    var g := Chunks(b, columns);
    ChunkSizes(b, columns);
    FlattenChunks(b, columns);
    if |b| % columns != 0 {
      var last := g[|g| - 1];
      assert g == g[..|g| - 1] + [last];
      FlattenSnoc(g[..|g| - 1], last);
      FlattenSnoc(g[..|g| - 1], last + [v]);
    } else {
      FlattenSnoc(g, [v]);
    }
  }

  /**
   * `_make_keyboard`: `None` stands for the exceptions it raises: names and
   * callbacks of different lengths, a zero column count with buttons to place
   * (the modulo by zero), and a back button with no buttons (the lookup of
   * the last row of an empty grid).
   */
  method MakeKeyboard(names: seq<string>, callbacks: seq<string>, columns: nat, volver: bool, volverCallback: string)
    returns (r: Option<seq<seq<Button>>>)
    ensures r.None? <==> |names| != |callbacks| || (columns == 0 && names != []) || (volver && names == [])
    ensures r.Some? && !volver ==> r.value == Chunks(Buttons(names, callbacks), columns)
    ensures r.Some? && volver ==>
              r.value == PlaceVolver(Chunks(Buttons(names, callbacks), columns), columns, Button(VolverText, volverCallback))
  {
    if |names| != |callbacks| {
      return None;
    }
    var keyboards: seq<Button> := [];
    for i := 0 to |names|
      invariant keyboards == Buttons(names[..i], callbacks[..i])
    {
      keyboards := keyboards + [Button(names[i], callbacks[i])];
    }
    assert names[..|names|] == names && callbacks[..|callbacks|] == callbacks;

    var returnKeyboard: seq<seq<Button>>;
    if columns == 1 {
      returnKeyboard := seq(|keyboards|, k requires 0 <= k < |keyboards| => [keyboards[k]]);
      ChunksOfOne(keyboards);
    } else {
      if columns == 0 && keyboards != [] {
        return None;
      }
      returnKeyboard := [];
      for i := 0 to |keyboards|
        invariant returnKeyboard == Chunks(keyboards[..i], columns)
      {
        assert keyboards[..i + 1] == keyboards[..i] + [keyboards[i]];
        ChunksSnoc(keyboards[..i], keyboards[i], columns);
        ChunkSizes(keyboards[..i], columns);
        if i % columns == 0 {
          returnKeyboard := returnKeyboard + [[keyboards[i]]];
        } else {
          returnKeyboard := returnKeyboard[i / columns := returnKeyboard[i / columns] + [keyboards[i]]];
        }
      }
      assert keyboards[..|keyboards|] == keyboards;
    }

    if volver {
      if returnKeyboard == [] {
        return None;
      }
      var volverButton := Button(VolverText, volverCallback);
      if |returnKeyboard[|returnKeyboard| - 1]| < columns {
        returnKeyboard := returnKeyboard[|returnKeyboard| - 1 := returnKeyboard[|returnKeyboard| - 1] + [volverButton]];
      } else {
        returnKeyboard := returnKeyboard + [[volverButton]];
      }
    }
    r := Some(returnKeyboard);
  }
}
