/**
 * Class Mesh (Mesh.cpp): what the constructor keeps of its vertex and
 * index lists once the two GPU buffers are (or are not) created, and the
 * sampling-technique cycle. The Direct3D calls are reduced to the two
 * success flags the constructor branches on; the effect is reduced to the
 * name of its current technique.
 */
module MeshModel {
  import Datatypes
  import Raster

  datatype Option<T> = None | Some(value: T)

  /** The Technique values cycled by CycleTechnique, in switch order */
  const Point := 0
  const Linear := 1
  const Anisotropic := 2
  const Flat := 3

  /** The technique Effect selects when it is built */
  const InitialTechniqueName := "DefaultTechnique"

  /** The technique assigned after Technique t: Anisotropic wraps to Technique(0), every other value advances */
  function NextTechnique(t: int): int
  {
    if t == Anisotropic then 0 else t + 1
  }

  /** The effect technique each named Technique selects; other values select nothing */
  function TechniqueName(t: int): (name: Option<string>)
    ensures name.Some? <==> Point <= t <= Flat
  {
    if t == Point then Some("DefaultTechnique")
    else if t == Linear then Some("LinearTechnique")
    else if t == Anisotropic then Some("AniTechnique")
    else if t == Flat then Some("FlatTechnique")
    else None
  }

  /** Applying NextTechnique n times */
  function CycleTechniqueN(t: int, n: nat): int
    decreases n
  {
    if n == 0 then t else CycleTechniqueN(NextTechnique(t), n - 1)
  }

  /** From Point, Linear or Anisotropic the cycle stays among the three and returns after three steps */
  lemma TechniqueCycleOfThree(t: int)
    requires Point <= t <= Anisotropic
    ensures Point <= NextTechnique(t) <= Anisotropic
    ensures CycleTechniqueN(t, 3) == t
    ensures CycleTechniqueN(t, 1) != t && CycleTechniqueN(t, 2) != t
  {
  }

  /** Flat is never reached by cycling, and cycling from Flat leaves the named techniques */
  lemma FlatLeavesCycle()
    ensures NextTechnique(Flat) == 4 && TechniqueName(NextTechnique(Flat)) == None
    ensures forall t :: NextTechnique(t) != Flat
  {
  }

  /** Different techniques select different effect techniques */
  lemma TechniqueNamesDistinct(s: int, t: int)
    requires TechniqueName(s).Some? && TechniqueName(t).Some? && s != t
    ensures TechniqueName(s) != TechniqueName(t)
  {
  }

  class Mesh {
    var vertices: seq<Datatypes.Vertex>
    var indices: seq<nat>
    /** m_NumIndices, a uint32_t; 0 stands for the value it has when the constructor returns before setting it */
    var numIndices: nat
    var technique: int
    /** The name of the technique the effect currently holds */
    var effectTechnique: string
    /** m_pTechnique, by name */
    var currentTechnique: string

    /** vertexBufferCreated and indexBufferCreated are the outcomes of the two CreateBuffer calls;
        technique is the initial m_Technique */
    constructor (verts: seq<Datatypes.Vertex>, ind: seq<nat>, vertexBufferCreated: bool, indexBufferCreated: bool,
                 technique: int)
      ensures this.technique == technique
      ensures effectTechnique == InitialTechniqueName && currentTechnique == InitialTechniqueName
      ensures !vertexBufferCreated ==> numIndices == 0
      ensures vertexBufferCreated ==> numIndices == |ind| % Raster.U32Mod && numIndices < Raster.U32Mod
      ensures vertexBufferCreated && indexBufferCreated ==> vertices == verts && indices == ind
      ensures !(vertexBufferCreated && indexBufferCreated) ==> vertices == [] && indices == []
    {
      vertices := [];
      indices := [];
      numIndices := 0;
      this.technique := technique;
      effectTechnique := InitialTechniqueName;
      currentTechnique := InitialTechniqueName;
      new;
      if !vertexBufferCreated {
        return;
      }
      numIndices := |ind| % Raster.U32Mod;
      if !indexBufferCreated {
        return;
      }
      vertices := verts;
      indices := ind;
    }

    /** Advance the technique, select its effect technique when it has one, then read it back */
    method CycleTechnique()
      modifies this`technique, this`effectTechnique, this`currentTechnique
      ensures technique == NextTechnique(old(technique))
      ensures TechniqueName(technique).Some? ==> effectTechnique == TechniqueName(technique).value
      ensures TechniqueName(technique).None? ==> effectTechnique == old(effectTechnique)
      ensures currentTechnique == effectTechnique
    {
      technique := if technique == Anisotropic then 0 else technique + 1;
      var name := TechniqueName(technique);
      if name.Some? {
        effectTechnique := name.value;
      }
      currentTechnique := effectTechnique;
    }
  }
}
