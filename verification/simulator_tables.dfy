/** The constant tables the student simulator is built with: the curriculum
    (subject, then chapters in declaration order, each with topic titles and
    concept keywords), the eight student personas, the question templates each
    persona asks, and the thresholds of the response filters. None of them is
    ever changed. */
module SimulatorTables {

  /** One chapter of a subject: its key, its topic titles and its concept keywords. */
  datatype Chapter = Chapter(key: string, topics: seq<string>, concepts: seq<string>)

  /** A simulated student. `preference` is the subject the student prefers;
      `generic` are the questions it always may ask, and `extras` the ones it adds
      when the subject is `specialty`, the subject of its specialisation branch. */
  datatype Persona = Persona(
    name: string,
    personality: string,
    learningStyle: string,
    avatar: string,
    voiceType: string,
    preference: string,
    generic: seq<string>,
    specialty: string,
    extras: seq<string>)

  // ---------------------------------------------------------------------------
  // Filter thresholds

  /** A normalised utterance containing a greeting counts as one only below this length. */
  const GreetingLengthLimit := 20
  /** Utterances shorter than this never get responses. */
  const MinUtteranceLength := 10
  /** Utterances that match no topic need at least this length. */
  const TopicFreeMinLength := 30
  /** A persona that does not prefer the subject joins when its draw exceeds this. */
  const InclusionThreshold := 0.7
  /** At most this many students respond to one utterance. */
  const MaxResponses := 3

  const Greetings: seq<string> := [
    "hello", "hi", "good morning", "good afternoon", "good evening", "welcome", "let me",
    "las", "okay", "ok", "yes", "no", "right", "correct"
  ]

  // ---------------------------------------------------------------------------
  // Curriculum

  /** The physics chapters, in declaration order. */
  const PhysicsChapters: seq<Chapter> := [
    Chapter("general",
      [ "Units and Dimensions",
        "Physical Quantities",
        "SI Units",
        "Measurement of error",
        "Significant figures",
        "Error analysis",
        "Experiments"],
      [ "unit",
        "dimension",
        "error",
        "significant figures",
        "measurement",
        "precision",
        "accuracy"]),
    Chapter("mechanics",
      [ "Kinematics (1D and 2D motion, projectiles)",
        "Laws of Motion (Newton's laws, friction, circular motion)",
        "Work, Energy and Power",
        "System of Particles and Rotational Motion",
        "Centre of mass, motion of COM",
        "Torque, Angular momentum",
        "Rigid body dynamics, Moment of inertia, Rolling motion",
        "Gravitation (Newton's law, satellites, escape velocity, orbital velocity, Kepler's laws)"],
      [ "displacement",
        "velocity",
        "acceleration",
        "force",
        "momentum",
        "energy",
        "angular velocity",
        "torque",
        "gravity",
        "friction",
        "projectile",
        "circular motion",
        "work",
        "power",
        "moment of inertia",
        "centre of mass",
        "escape velocity",
        "orbital velocity"]),
    Chapter("properties_matter_thermodynamics",
      [ "Mechanical Properties of Solids (stress, strain, elastic modulus, Hooke's law)",
        "Mechanical Properties of Fluids (pressure, Pascal's law, Archimedes' principle, viscosity, surface tension)",
        "Thermal Properties of Matter (heat transfer, calorimetry, expansion of solids/liquids/gases)",
        "Thermodynamics (first law, second law, entropy, heat engines)",
        "Kinetic Theory of Gases (equipartition, RMS velocity, mean free path)"],
      [ "stress",
        "strain",
        "elasticity",
        "pressure",
        "buoyancy",
        "viscosity",
        "surface tension",
        "heat",
        "temperature",
        "thermal expansion",
        "entropy",
        "heat engine",
        "kinetic theory",
        "ideal gas",
        "PV diagram"]),
    Chapter("oscillations_waves",
      [ "Simple Harmonic Motion (equations, energy, superposition)",
        "Damped and Forced oscillations, Resonance",
        "Waves (sound waves, Doppler effect, beats, standing waves, organ pipes)"],
      [ "oscillation",
        "frequency",
        "amplitude",
        "phase",
        "resonance",
        "wave",
        "wavelength",
        "doppler effect",
        "interference",
        "beats",
        "standing wave"]),
    Chapter("electrostatics_current",
      [ "Electrostatics (Coulomb's law, electric field, potential, Gauss law, capacitors)",
        "Current Electricity (Ohm's law, Kirchhoff's laws, cells, resistivity, Wheatstone bridge, potentiometer)"],
      [ "electric charge",
        "electric field",
        "electric potential",
        "capacitance",
        "current",
        "resistance",
        "voltage",
        "power",
        "circuit",
        "ohm law",
        "kirchhoff law"]),
    Chapter("magnetism_induction",
      [ "Magnetic Effects of Current (Biot–Savart law, Ampere's law)",
        "Earth's magnetism, Magnetic materials",
        "Moving charges in magnetic fields (Lorentz force, cyclotron)",
        "Electromagnetic Induction (Faraday's law, Lenz's law, self and mutual inductance)",
        "Alternating Current (LCR circuits, resonance, transformers)"],
      [ "magnetic field",
        "magnetic force",
        "electromagnetic induction",
        "flux",
        "inductance",
        "AC",
        "transformer",
        "resonance",
        "impedance",
        "lorentz force"]),
    Chapter("electromagnetic_waves",
      [ "Displacement current, Maxwell's equations (qualitative)",
        "EM spectrum"],
      [ "electromagnetic wave",
        "maxwell equations",
        "electromagnetic spectrum",
        "radio waves",
        "microwaves",
        "infrared",
        "visible light",
        "ultraviolet",
        "x-rays",
        "gamma rays"]),
    Chapter("optics",
      [ "Ray Optics (reflection, refraction, lenses, mirrors, optical instruments, total internal reflection)",
        "Wave Optics (interference, diffraction, polarisation, Young's double-slit experiment)"],
      [ "reflection",
        "refraction",
        "lens",
        "mirror",
        "focal length",
        "magnification",
        "interference",
        "diffraction",
        "polarization",
        "coherence"]),
    Chapter("modern_physics",
      [ "Dual Nature of Matter and Radiation (photoelectric effect, de Broglie wavelength)",
        "Atoms (Bohr model, hydrogen spectrum)",
        "Nuclei (radioactivity, nuclear reactions, mass defect, binding energy)",
        "Semiconductor Electronics (diodes, transistors, logic gates)",
        "Communication Systems (JEE Main only, not in Advanced)"],
      [ "photon",
        "electron",
        "photoelectric effect",
        "de broglie wavelength",
        "bohr model",
        "hydrogen spectrum",
        "nucleus",
        "radioactivity",
        "nuclear reaction",
        "semiconductor",
        "diode",
        "transistor"])
  ]

  /** The chemistry chapters, in declaration order. */
  const ChemistryChapters: seq<Chapter> := [
    Chapter("physical_chemistry",
      [ "Some Basic Concepts of Chemistry (mole concept, stoichiometry, empirical formula)",
        "Atomic Structure (Bohr model, quantum numbers, electronic configuration)",
        "Chemical Bonding and Molecular Structure (VSEPR, hybridisation, MOT, bond energy)",
        "States of Matter (ideal gas, real gas, liquefaction, kinetic theory of gases)",
        "Chemical Thermodynamics (first, second laws, Gibbs free energy, spontaneity)",
        "Solutions (Raoult's law, colligative properties, Henry's law)",
        "Equilibrium (chemical equilibrium, ionic equilibrium, solubility product, buffer)",
        "Redox Reactions and Electrochemistry (Nernst equation, galvanic cells, electrolytic cells)",
        "Chemical Kinetics (order, molecularity, Arrhenius equation, rate laws)",
        "Surface Chemistry (adsorption, catalysis, colloids)"],
      [ "mole",
        "stoichiometry",
        "atomic structure",
        "quantum numbers",
        "orbital",
        "bond",
        "hybridization",
        "gas laws",
        "enthalpy",
        "entropy",
        "gibbs energy",
        "equilibrium",
        "pH",
        "buffer",
        "redox",
        "electrochemistry",
        "kinetics",
        "catalyst",
        "adsorption"]),
    Chapter("inorganic_chemistry",
      [ "Periodic Table & Periodicity in Properties",
        "Hydrogen and its Compounds",
        "s-Block Element (alkali and alkaline earth metals)",
        "p-Block Elements (Groups 13–18, including oxides, halides, allotropes)",
        "d-Block Elements (transition metals, their compounds, color, catalytic properties)",
        "f-Block Elements (lanthanides, actinides)",
        "Coordination Compounds (VBT, CFT, isomerism, stability)",
        "Environmental Chemistry",
        "General Principles & Processes of Isolation of Metals"],
      [ "periodic table",
        "periodicity",
        "alkali metals",
        "alkaline earth metals",
        "halogens",
        "noble gases",
        "transition metals",
        "lanthanides",
        "actinides",
        "coordination compound",
        "ligand",
        "crystal field theory",
        "metallurgy"]),
    Chapter("organic_chemistry",
      [ "General Organic Chemistry (GOC) — nomenclature, hybridisation, resonance, inductive effect, mesomeric effect, hyperconjugation",
        "Isomerism (structural, geometrical, optical, conformational)",
        "Hydrocarbons: Alkanes, Alkenes, Alkynes (preparation, properties, reactions)",
        "Aromatic Compounds (benzene, electrophilic substitution, Huckel's rule)",
        "Organic Compounds with Functional Groups: Alcohols, Phenols, Ethers",
        "Aldehydes, Ketones, Carboxylic Acids and Derivatives",
        "Amines and Diazonium salts",
        "Haloalkanes and Haloarenes",
        "Polymers (addition, condensation, copolymers, natural & synthetic polymers)",
        "Biomolecules (proteins, carbohydrates, nucleic acids, vitamins)",
        "Chemistry in Everyday Life (drugs, soaps, detergents, dyes)"],
      [ "organic chemistry",
        "nomenclature",
        "isomerism",
        "alkane",
        "alkene",
        "alkyne",
        "aromatic",
        "benzene",
        "functional group",
        "alcohol",
        "aldehyde",
        "ketone",
        "carboxylic acid",
        "amine",
        "polymer",
        "protein",
        "carbohydrate",
        "DNA",
        "RNA"])
  ]

  /** The mathematics chapters, in declaration order. */
  const MathematicsChapters: seq<Chapter> := [
    Chapter("algebra",
      [ "Sets, Relations, Functions",
        "Complex Numbers (properties, De Moivre's theorem, quadratic equations)",
        "Matrices and Determinants",
        "Permutations and Combinations",
        "Binomial Theorem and Applications",
        "Sequences and Series (AP, GP, HP, special series, sums of squares/cubes)",
        "Mathematical Induction",
        "Logarithms"],
      [ "set",
        "relation",
        "function",
        "complex number",
        "matrix",
        "determinant",
        "permutation",
        "combination",
        "binomial theorem",
        "sequence",
        "series",
        "arithmetic progression",
        "geometric progression",
        "induction",
        "logarithm"]),
    Chapter("trigonometry",
      [ "Trigonometric Ratios and Identities",
        "Trigonometric Equations",
        "Inverse Trigonometric Functions",
        "Properties of Triangles",
        "Heights and Distances"],
      [ "sine",
        "cosine",
        "tangent",
        "trigonometric identity",
        "trigonometric equation",
        "inverse trigonometric function",
        "triangle",
        "height",
        "distance",
        "angle of elevation",
        "angle of depression"]),
    Chapter("calculus",
      [ "Limits, Continuity, Differentiability",
        "Differentiation and Applications (tangents, normals, maxima/minima, monotonicity, Rolle's theorem, Mean Value Theorem)",
        "Indefinite Integrals (methods of integration)",
        "Definite Integrals (properties, applications, area under curves)",
        "Differential Equations (formation, first order and first degree, linear DE, separation of variables)"],
      [ "limit",
        "continuity",
        "derivative",
        "differentiation",
        "integration",
        "maxima",
        "minima",
        "tangent",
        "normal",
        "area under curve",
        "differential equation"]),
    Chapter("coordinate_geometry",
      [ "Straight Lines, Circles, Parabola, Ellipse, Hyperbola",
        "Conic Sections in general",
        "3D Geometry: direction cosines, equations of line and plane, distance formula, angle between lines/planes"],
      [ "coordinate",
        "straight line",
        "circle",
        "parabola",
        "ellipse",
        "hyperbola",
        "conic section",
        "distance formula",
        "direction cosine",
        "equation of plane"]),
    Chapter("vector_algebra",
      [ "Addition, scalar product, vector product, scalar triple product"],
      [ "vector",
        "scalar product",
        "dot product",
        "vector product",
        "cross product",
        "scalar triple product"]),
    Chapter("probability_statistics",
      [ "Probability (conditional probability, Bayes' theorem, binomial distribution)",
        "Statistics (mean, median, mode, variance, standard deviation)"],
      [ "probability",
        "conditional probability",
        "bayes theorem",
        "binomial distribution",
        "mean",
        "median",
        "mode",
        "variance",
        "standard deviation"]),
    Chapter("mathematical_reasoning",
      [ "Statements, logical connectives, truth tables, implications, validity"],
      [ "statement",
        "logical connective",
        "truth table",
        "implication",
        "validity",
        "negation",
        "conjunction",
        "disjunction"])
  ]

  /** Subject key to its chapters, in declaration order. */
  const Curriculum: map<string, seq<Chapter>> := map[
    "physics" := PhysicsChapters,
    "chemistry" := ChemistryChapters,
    "mathematics" := MathematicsChapters
  ]

  // ---------------------------------------------------------------------------
  // Personas

  const Personas: seq<Persona> := [
    Persona("Priya", "curious and detail-oriented", "asks for examples and real-world applications",
      "👩‍🎓", "female-high", "mathematics",
      [ "Sir, can you show us the JEE-level application of this concept?",
        "How does this appear in JEE Main vs JEE Advanced questions?",
        "Sir, what's the step-by-step approach for solving such problems in exams?",
        "Can you give us a previous year JEE question on this topic?" ],
      "physics",
      [ "Sir, what are the dimensional analysis tricks for this concept?",
        "How do we handle approximations in numerical problems?",
        "What graph-based questions can come from this topic?" ]),
    Persona("Arjun", "analytical and sometimes skeptical", "questions concepts and asks for proofs",
      "👨‍🎓", "male-deep", "physics",
      [ "Sir, I want to understand the deeper physics/mathematics behind this.",
        "Can you prove why this formula works?",
        "What are the assumptions we're making here?",
        "Sir, what happens at the boundary conditions?" ],
      "mathematics",
      [ "Can this be generalized to higher dimensions?",
        "What's the geometric interpretation of this result?",
        "Sir, how does this connect to advanced topics?" ]),
    Persona("Sneha", "enthusiastic and collaborative", "relates concepts to daily life",
      "👩‍💻", "female-medium", "chemistry",
      [ "Sir, where do we see this concept in real life?",
        "Can we design an experiment to verify this?",
        "How is this used in modern technology?",
        "Sir, which industries use this principle the most?" ],
      "chemistry",
      [ "What happens if we change the reaction conditions?",
        "Sir, can you show us the molecular-level picture?",
        "How does this reaction compare to similar ones?" ]),
    Persona("Rohit", "methodical and precise", "focuses on problem-solving techniques",
      "👨‍💻", "male-medium", "mathematics",
      [ "Sir, what's the fastest method to solve this in JEE?",
        "Are there any shortcut formulas for this topic?",
        "How do we recognize this pattern in complex problems?",
        "Sir, what's the time management strategy for such questions?" ],
      "physics",
      [ "Can we use energy methods instead of force analysis?",
        "Sir, what's the dimensional reasoning approach here?",
        "Which approximations save time in calculations?" ]),
    Persona("Ananya", "creative and imaginative", "visualizes concepts through diagrams",
      "👩‍🔬", "female-soft", "physics",
      [ "Sir, can you draw the physical situation?",
        "How do we visualize this mathematically?",
        "Can you show us the graphical representation?",
        "Sir, what does this look like in 3D space?" ],
      "mathematics",
      [ "Can we plot this function to understand better?",
        "Sir, what's the geometric meaning of this equation?",
        "How does this transformation affect the graph?" ]),
    Persona("Karthik", "competitive and goal-oriented", "compares with previous year questions",
      "👨‍🔬", "male-energetic", "chemistry",
      [ "Sir, how frequently does this topic appear in JEE Advanced?",
        "What's the difficulty level of questions from this chapter?",
        "Can you give us the toughest possible question on this?",
        "Sir, what makes a good student excel in this topic?" ],
      "chemistry",
      [ "Which coaching centers emphasize this topic the most?",
        "Sir, what are the common misconceptions here?",
        "How do top rankers approach such problems?" ]),
    Persona("Divya", "patient and thorough", "breaks down complex problems step by step",
      "👩‍🏫", "female-calm", "mathematics",
      [ "Sir, can you break this into smaller logical steps?",
        "Let me make sure I understand each part correctly.",
        "What should be our systematic approach to such problems?",
        "Sir, can you give us a checklist for solving these questions?" ],
      "mathematics",
      [ "What are the prerequisites for understanding this?",
        "Sir, how do we avoid calculation errors here?",
        "Can you explain the logic behind each step?" ]),
    Persona("Varun", "quick learner but sometimes overconfident", "jumps to conclusions, needs corrections",
      "👨‍🎯", "male-quick", "physics",
      [ "Sir, I think I know this but I'm getting confused with the details.",
        "Wait, this looks similar to what we did last week, right?",
        "I remember solving something like this, but my method was different.",
        "Sir, can you check if this alternative approach works?",
        "This concept seems straightforward, but the problems are tricky!" ],
      "physics",
      [ "Sir, I used conservation of energy, but got a different answer.",
        "Can we solve this using Newton's laws instead?",
        "I think there's a sign error in my calculation." ])
  ]

  /** No two personas share a name. */
  lemma PersonaNamesDistinct()
    ensures forall i, j :: 0 <= i < j < |Personas| ==> Personas[i].name != Personas[j].name
  {
  }

  /** The table's line counts: four generic lines each (five for Varun, the
      last persona) and three extra lines each. */
  lemma PersonaLineCounts()
    ensures |Personas| == 8 && Personas[7].name == "Varun"
    ensures forall i :: 0 <= i < |Personas| ==>
      |Personas[i].generic| == (if i == 7 then 5 else 4) && |Personas[i].extras| == 3
  {
  }

  /** Each subject of the curriculum is the preference of two personas. */
  lemma PersonaPreferences()
    ensures |Personas| == 8
    ensures Personas[1].preference == "physics" && Personas[4].preference == "physics"
    ensures Personas[2].preference == "chemistry" && Personas[5].preference == "chemistry"
    ensures Personas[0].preference == "mathematics" && Personas[3].preference == "mathematics"
    ensures Curriculum.Keys == {"physics", "chemistry", "mathematics"}
  {
  }

  /** "interference" is a concept of two physics chapters: the fourth
      (oscillations and waves) and the eighth (optics). */
  lemma InterferenceListedTwice()
    ensures "physics" in Curriculum && Curriculum["physics"] == PhysicsChapters
    ensures |PhysicsChapters| == 9
    ensures "interference" in PhysicsChapters[3].concepts && "interference" in PhysicsChapters[7].concepts
  {
  }

  /** The question frames (text before and after the topic) of the four
      questions that interpolate the first matched topic; only physics,
      chemistry and mathematics have them. */
  function TopicFrames(subject: string): seq<(string, string)> {
    if subject == "physics" then
      [ ("Sir, in JEE questions on ", ", what are the most common mistakes students make?"),
        ("Can you explain the relationship between ", " and the other physics concepts we've studied?"),
        ("Sir, how do we approach problems where ", " is combined with other topics?"),
        ("What are the typical numerical ranges for ", " in JEE Advanced questions?") ]
    else if subject == "chemistry" then
      [ ("Sir, what are the exceptions to the rule in ", " that often appear in JEE?"),
        ("How does ", " connect to organic reactions we studied earlier?"),
        ("Sir, can you give us a mechanism-based question on ", "?"),
        ("What industrial applications of ", " are frequently asked in JEE?") ]
    else if subject == "mathematics" then
      [ ("Sir, what's the most elegant way to solve ", " problems in JEE?"),
        ("Can ", " be solved using multiple methods? Which is fastest?"),
        ("Sir, how do we identify when to use ", " in coordinate geometry problems?"),
        ("What are the common integration tricks for ", "?") ]
    else []
  }

  /** Each frame with `topic` put between its two parts. */
  function Fill(frames: seq<(string, string)>, topic: string): seq<string> {
    seq(|frames|, i requires 0 <= i < |frames| => frames[i].0 + topic + frames[i].1)
  }

  lemma TopicFramesCount(subject: string)
    ensures |TopicFrames(subject)| == (if subject in {"physics", "chemistry", "mathematics"} then 4 else 0)
  {
  }

  /** The topic questions with `topic` filled in. */
  function TopicTemplates(subject: string, topic: string): seq<string> {
    Fill(TopicFrames(subject), topic)
  }
}
