/**
 * Material properties (TStiffMech.py): the Young modulus and Poisson ratio
 * given at construction, and the shear modulus derived from them once.
 * The derivation is the one the program uses, E / (1 + poisson), which is
 * not the textbook E / (2 (1 + poisson)).
 */
module StiffMech {

  datatype Material = Material(E: real, poisson: real, G: real)

  /** Construction: the getters return the given E and poisson, and G times (1 + poisson) is E. */
  function NewMaterial(E: real, poisson: real): (m: Material)
    requires poisson != -1.0
    ensures m.E == E && m.poisson == poisson
    ensures m.G * (1.0 + poisson) == E
  {
    Material(E, poisson, E / (1.0 + poisson))
  }
}
