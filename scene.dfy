/**
 * The scene of `src/scene.rs`: a list of (geometry, material) entities and
 * a query that returns the nearest hit along a ray.
 */
module Scene {
  import opened Wrappers
  import opened Rays

  type Entity = (Geometry, Material)

  /** Every entity is tested over `0.001..INFINITY`, which keeps a ray off the surface it leaves. */
  const CastInterval := Interval(0.001, Infinity)

  /** The hit test of entity `k`. */
  function TestAt(es: seq<Entity>, ray: Ray, hit: HitTest, k: int): Option<HitRecord>
    requires 0 <= k < |es|
  {
    hit(es[k].0, ray, CastInterval)
  }

  /** None of the first `n` entities is hit. */
  ghost predicate NoHitBelow(es: seq<Entity>, ray: Ray, hit: HitTest, n: int)
    requires n <= |es|
  {
    forall j :: 0 <= j < n ==> TestAt(es, ray, hit, j).None?
  }

  /**
   * Among the first `n` entities, entity `k` reports `rec` and carries `m`,
   * no hit is nearer than `rec`, and every hit before `k` is strictly farther.
   */
  ghost predicate NearestAt(es: seq<Entity>, ray: Ray, hit: HitTest, n: int, k: int, rec: HitRecord, m: Material)
    requires n <= |es|
  {
    && 0 <= k < n
    && TestAt(es, ray, hit, k) == Some(rec)
    && es[k].1 == m
    && (forall j :: 0 <= j < n && TestAt(es, ray, hit, j).Some? ==> rec.t <= TestAt(es, ray, hit, j).value.t)
    && (forall j :: 0 <= j < k && TestAt(es, ray, hit, j).Some? ==> rec.t < TestAt(es, ray, hit, j).value.t)
  }

  /** `res` is the answer a nearest-hit query over the first `n` entities must give. */
  ghost predicate IsNearest(es: seq<Entity>, ray: Ray, hit: HitTest, n: int, res: Option<(HitRecord, Material)>)
    requires n <= |es|
  {
    match res
    case None => NoHitBelow(es, ray, hit, n)
    case Some(p) => exists k :: NearestAt(es, ray, hit, n, k, p.0, p.1)
  }

  /**
   * Reference definition of the nearest hit, folded from the right: the head
   * entity wins unless the rest holds a strictly nearer hit.
   */
  function Nearest(es: seq<Entity>, ray: Ray, hit: HitTest): Option<(HitRecord, Material)> {
    if |es| == 0 then None
    else
      var rest := Nearest(es[1..], ray, hit);
      match hit(es[0].0, ray, CastInterval)
      case None => rest
      case Some(r) => if rest.Some? && rest.value.0.t < r.t then rest else Some((r, es[0].1))
  }

  /** The reference definition meets the characterisation. */
  lemma {:induction false} NearestCharacterised(es: seq<Entity>, ray: Ray, hit: HitTest)
    ensures IsNearest(es, ray, hit, |es|, Nearest(es, ray, hit))
  {
    if |es| > 0 {
      var tail := es[1..];
      var rest := Nearest(tail, ray, hit);
      NearestCharacterised(tail, ray, hit);
      forall j | 0 <= j < |tail|
        ensures TestAt(tail, ray, hit, j) == TestAt(es, ray, hit, j + 1) && tail[j] == es[j + 1]
      {
      }
      var res := Nearest(es, ray, hit);
      var h0 := hit(es[0].0, ray, CastInterval);
      if h0.None? || (rest.Some? && rest.value.0.t < h0.value.t) {
        assert res == rest;
        if rest.Some? {
          var k' :| NearestAt(tail, ray, hit, |tail|, k', rest.value.0, rest.value.1);
          assert NearestAt(es, ray, hit, |es|, k' + 1, res.value.0, res.value.1) by {
            forall j | 0 <= j < |es| && TestAt(es, ray, hit, j).Some?
              ensures res.value.0.t <= TestAt(es, ray, hit, j).value.t
            {
              if j > 0 {
                assert TestAt(tail, ray, hit, j - 1).Some?;
              }
            }
            forall j | 0 <= j < k' + 1 && TestAt(es, ray, hit, j).Some?
              ensures res.value.0.t < TestAt(es, ray, hit, j).value.t
            {
              if j > 0 {
                assert TestAt(tail, ray, hit, j - 1).Some?;
              }
            }
          }
        } else {
          forall j | 0 <= j < |es|
            ensures TestAt(es, ray, hit, j).None?
          {
            if j > 0 {
              assert TestAt(tail, ray, hit, j - 1).None?;
            }
          }
        }
      } else {
        assert res == Some((h0.value, es[0].1));
        assert NearestAt(es, ray, hit, |es|, 0, res.value.0, res.value.1) by {
          forall j | 0 <= j < |es| && TestAt(es, ray, hit, j).Some?
            ensures res.value.0.t <= TestAt(es, ray, hit, j).value.t
          {
            if j > 0 {
              assert TestAt(tail, ray, hit, j - 1).Some?;
              var k' :| NearestAt(tail, ray, hit, |tail|, k', rest.value.0, rest.value.1);
            }
          }
        }
      }
    }
  }

  /** The characterisation admits exactly one answer. */
  lemma NearestUnique(es: seq<Entity>, ray: Ray, hit: HitTest, n: int, a: Option<(HitRecord, Material)>, b: Option<(HitRecord, Material)>)
    requires n <= |es|
    requires IsNearest(es, ray, hit, n, a) && IsNearest(es, ray, hit, n, b)
    ensures a == b
  {
    if a.Some? && b.Some? {
      var ka :| NearestAt(es, ray, hit, n, ka, a.value.0, a.value.1);
      var kb :| NearestAt(es, ray, hit, n, kb, b.value.0, b.value.1);
      assert TestAt(es, ray, hit, ka).Some? && TestAt(es, ray, hit, kb).Some?;
      if ka < kb {
        assert false;
      } else if kb < ka {
        assert false;
      }
    }
  }

  /** The query answers `None` exactly when no entity's test reports a hit. */
  lemma NearestNoneIff(es: seq<Entity>, ray: Ray, hit: HitTest)
    ensures Nearest(es, ray, hit).None? <==> forall k :: 0 <= k < |es| ==> hit(es[k].0, ray, CastInterval).None?
  {
    NearestCharacterised(es, ray, hit);
    var res := Nearest(es, ray, hit);
    if res.Some? {
      var k :| NearestAt(es, ray, hit, |es|, k, res.value.0, res.value.1);
      assert TestAt(es, ray, hit, k).Some?;
    } else {
      assert NoHitBelow(es, ray, hit, |es|);
    }
  }

  /**
   * The distance of the nearest hit does not depend on the order of the
   * entities: any reordering has a hit exactly when the original does, at
   * the same `t`. (Which material wins a tie does depend on the order.)
   */
  lemma NearestOrderFree(es: seq<Entity>, fs: seq<Entity>, ray: Ray, hit: HitTest)
    requires multiset(es) == multiset(fs)
    ensures Nearest(es, ray, hit).None? <==> Nearest(fs, ray, hit).None?
    ensures Nearest(es, ray, hit).Some? ==> Nearest(es, ray, hit).value.0.t == Nearest(fs, ray, hit).value.0.t
  {
    NearestCharacterised(es, ray, hit);
    NearestCharacterised(fs, ray, hit);
    var a, b := Nearest(es, ray, hit), Nearest(fs, ray, hit);
    if a.Some? {
      var ka :| NearestAt(es, ray, hit, |es|, ka, a.value.0, a.value.1);
      assert es[ka] in multiset(fs);
      var ja :| 0 <= ja < |fs| && fs[ja] == es[ka];
      assert TestAt(fs, ray, hit, ja).Some?;
    }
    if b.Some? {
      var kb :| NearestAt(fs, ray, hit, |fs|, kb, b.value.0, b.value.1);
      assert fs[kb] in multiset(es);
      var jb :| 0 <= jb < |es| && es[jb] == fs[kb];
      assert TestAt(es, ray, hit, jb).Some?;
    }
  }

  /** A hit test that honours its range never lets a hit nearer than 0.001 through. */
  lemma NearestBeyondEpsilon(es: seq<Entity>, ray: Ray, hit: HitTest)
    requires RespectsInterval(hit)
    ensures Nearest(es, ray, hit).Some? ==> Nearest(es, ray, hit).value.0.t >= 0.001
  {
    NearestCharacterised(es, ray, hit);
    var res := Nearest(es, ray, hit);
    if res.Some? {
      var k :| NearestAt(es, ray, hit, |es|, k, res.value.0, res.value.1);
      assert hit(es[k].0, ray, CastInterval).Some?;
    }
  }

  class Scene {
    var entities: seq<Entity>

    /** `Scene::_new`: an empty scene. */
    constructor New()
      ensures entities == []
    {
      entities := [];
    }

    /** `Scene::from_list`: the list is stored as given. */
    constructor FromList(list: seq<Entity>)
      ensures entities == list
    {
      entities := list;
    }

    /** `Scene::_add`: appends one entity, keeping the earlier ones in place. */
    method Add(g: Geometry, m: Material)
      modifies this
      ensures entities == old(entities) + [(g, m)]
    {
      entities := entities + [(g, m)];
    }

    /**
     * `Scene::ray_cast`: one pass over the entities keeping the hit with the
     * smallest `t`; a later hit replaces the kept one only when strictly nearer.
     */
    method RayCast(ray: Ray, hit: HitTest) returns (nearest: Option<(HitRecord, Material)>)
      ensures nearest.None? <==> forall k :: 0 <= k < |entities| ==> hit(entities[k].0, ray, CastInterval).None?
      ensures nearest.Some? ==> exists k :: NearestAt(entities, ray, hit, |entities|, k, nearest.value.0, nearest.value.1)
      ensures nearest == Nearest(entities, ray, hit)
    {
      nearest := None;
      ghost var winner := 0;
      for i := 0 to |entities|
        invariant nearest.None? ==> NoHitBelow(entities, ray, hit, i)
        invariant nearest.Some? ==> NearestAt(entities, ray, hit, i, winner, nearest.value.0, nearest.value.1)
      {
        var (s, m) := entities[i];
        var r := hit(s, ray, CastInterval);
        if r.Some? {
          if nearest.Some? {
            if r.value.t < nearest.value.0.t {
              nearest := Some((r.value, m));
              winner := i;
            }
          } else {
            nearest := Some((r.value, m));
            winner := i;
          }
        }
      }
      if nearest.Some? {
        assert TestAt(entities, ray, hit, winner).Some?;
      }
      assert IsNearest(entities, ray, hit, |entities|, nearest);
      NearestCharacterised(entities, ray, hit);
      NearestUnique(entities, ray, hit, |entities|, nearest, Nearest(entities, ray, hit));
      NearestNoneIff(entities, ray, hit);
    }
  }

  /** On a freshly made scene every ray misses. */
  method EmptySceneMisses(ray: Ray, hit: HitTest) returns (r: Option<(HitRecord, Material)>)
    ensures r == None
  {
    var scene := new Scene.New();
    r := scene.RayCast(ray, hit);
  }
}
