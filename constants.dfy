/** The physical constants of the library (Appendix A of Harrison's
    "Quantum Wells, Wires and Dots"), in SI units. They have no behaviour;
    the rest of the model reads them as exact reals. */
module Constants {

  /** Circumference over diameter, to the digits the library spells out. */
  const PI: real := 3.1415926535897932384

  /** Planck's constant over 2 pi. */
  const HBAR: real := 1.054588757e-34

  /** Elementary charge. */
  const E0: real := 1.602189246e-19

  /** Electron rest mass. */
  const M0: real := 9.109534e-31

  /** Permittivity of free space. */
  const EPSILON: real := 8.854187827e-12

  /** Boltzmann's constant. */
  const KB: real := 1.3806488e-23

  /** Relative effective electron mass in GaAs. */
  const MSTAR_GAAS: real := 0.067

  /** Permittivity of GaAs. */
  const PERMITTIVITY_GAAS: real := 12.9 * EPSILON
}
