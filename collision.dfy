/** The player-versus-obstacle test of collisionSystem. */
module Collision {
  import opened Components

  /** Inclusive overlap of the two squares (right edge = x + size, bottom
      edge = y + size), and the obstacle's bottom edge in the foreground band. */
  predicate Hits(p: Player, s: Slot)
    // The corner of the overlap: the larger left edge and the larger top edge.
    ensures Hits(p, s) ==>
              var x := if p.pos.x < s.pos.x then s.pos.x else p.pos.x;
              var y := if p.pos.y < s.pos.y then s.pos.y else p.pos.y;
              OnSquare(x, y, p.pos, p.drawable.size) && OnSquare(x, y, s.pos, s.drawable.size)
  {
    var playerLeft := p.pos.x;
    var playerRight := p.pos.x + p.drawable.size;
    var playerTop := p.pos.y;
    var playerBottom := p.pos.y + p.drawable.size;
    var obstacleLeft := s.pos.x;
    var obstacleRight := s.pos.x + s.drawable.size;
    var obstacleTop := s.pos.y;
    var obstacleBottom := s.pos.y + s.drawable.size;
    && playerRight >= obstacleLeft && playerLeft <= obstacleRight
    && playerBottom >= obstacleTop && playerTop <= obstacleBottom
    && obstacleBottom >= ForegroundBand
  }

  /** The point (x, y) lies on the closed square with corner `pos` and side `size`. */
  predicate OnSquare(x: int, y: int, pos: Position, size: int) {
    pos.x <= x <= pos.x + size && pos.y <= y <= pos.y + size
  }

  /** Independent description of an overlap: some point lies on both squares. */
  ghost predicate ShareAPoint(p: Player, s: Slot) {
    exists x, y :: OnSquare(x, y, p.pos, p.drawable.size) && OnSquare(x, y, s.pos, s.drawable.size)
  }

  /** The four edge comparisons hold exactly when the two closed squares
      share a point; the fifth is the foreground band. */
  lemma HitsIffSharedPoint(p: Player, s: Slot)
    ensures Hits(p, s) <==> ShareAPoint(p, s) && s.pos.y + s.drawable.size >= ForegroundBand
  {
    if Hits(p, s) {
      var x := if p.pos.x < s.pos.x then s.pos.x else p.pos.x;
      var y := if p.pos.y < s.pos.y then s.pos.y else p.pos.y;
      assert OnSquare(x, y, p.pos, p.drawable.size) && OnSquare(x, y, s.pos, s.drawable.size);
    }
  }

  /** An obstacle drawn on the player's own square hits it once it is low enough. */
  lemma SameSquareHits(p: Player, s: Slot)
    requires s.pos == p.pos && s.drawable.size == p.drawable.size
    ensures Hits(p, s) <==> p.pos.y + p.drawable.size >= ForegroundBand
  {}

  /** Squares apart on either axis never hit, however low the obstacle is. */
  lemma ApartNeverHits(p: Player, s: Slot)
    requires || s.pos.x > p.pos.x + p.drawable.size || p.pos.x > s.pos.x + s.drawable.size
             || s.pos.y > p.pos.y + p.drawable.size || p.pos.y > s.pos.y + s.drawable.size
    ensures !Hits(p, s)
  {}
}
