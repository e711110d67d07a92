/**
 * `SpriteCollection`: the list of everything that moves or is drawn each
 * frame. Of the sprites' own `timePassed`, the model carries the piranha
 * background's; every other sprite stands for one whose frame step is not
 * part of this model.
 */
module Sprites {
  import opened ListOps
  import opened Backgrounds

  /** A sprite: the level-one background, or a sprite known only by its identity. */
  datatype Sprite = Piranha(background: Background1) | OtherSprite(id: nat)

  /** The backgrounds among `ss`: what a pass over `ss` may change. */
  function BackgroundsOf(ss: seq<Sprite>): set<Background1> {
    set i | 0 <= i < |ss| && ss[i].Piranha? :: ss[i].background
  }

  /** A background's state after a pass over `ss` from `start`: one frame per occurrence. */
  function AfterPass(ss: seq<Sprite>, b: Background1, start: PiranhaState): PiranhaState {
    Ticks(start, Count(ss, Piranha(b)))
  }

  /** A background listed once moves exactly one frame per pass; one not listed stays put. */
  lemma OneFramePerPass(ss: seq<Sprite>, b: Background1, start: PiranhaState)
    ensures Piranha(b) !in ss ==> AfterPass(ss, b, start) == start
    ensures Count(ss, Piranha(b)) == 1 ==> AfterPass(ss, b, start) == Tick(start)
  {
    CountPositive(ss, Piranha(b));
    assert Ticks(start, 1) == Tick(start);
  }

  class SpriteCollection {
    var sprites: seq<Sprite>

    /** Takes the list as given. */
    constructor (sprites: seq<Sprite>)
      ensures this.sprites == sprites
    {
      this.sprites := sprites;
    }

    method AddSprite(s: Sprite)
      modifies this
      ensures sprites == old(sprites) + [s]
    {
      sprites := sprites + [s];
    }

    method RemoveSpriteFromCollection(s: Sprite)
      modifies this
      ensures sprites == RemoveFirst(old(sprites), s)
    {
      sprites := RemoveFirst(sprites, s);
    }

    /**
     * `notifyAllTimePassed`: a frame for every entry of a snapshot of the
     * list taken on entry, once each, in order. The list itself is left as
     * it was, and each background moves one frame per time it is listed.
     */
    method NotifyAllTimePassed()
      modifies BackgroundsOf(sprites)
      ensures sprites == old(sprites)
      ensures forall b :: b in old(BackgroundsOf(sprites)) ==>
        b.State() == AfterPass(old(sprites), b, old(b.State()))
    {
      var spriteList := sprites;
      for i := 0 to |spriteList|
        invariant forall b :: b in BackgroundsOf(spriteList) ==>
          b.State() == AfterPass(spriteList[..i], b, old(b.State()))
      {
        assert spriteList[..i + 1] == spriteList[..i] + [spriteList[i]];
        match spriteList[i]
        case Piranha(bg) =>
          assert bg in BackgroundsOf(spriteList);
          bg.TimePassed();
        case OtherSprite(_) =>
      }
      assert spriteList[..|spriteList|] == spriteList;
    }
  }
}
