/** The configuration constants the environment reads at construction. */
module Settings {

  datatype Config = Config(
    windowWidth: real,
    windowHeight: real,
    minimumSeparation: real,
    nmacDist: real,
    goalRadius: real,
    initSpeed: real,
    minSpeed: real,
    maxSpeed: real,
    dHeading: real,
    timeIntervalLower: real,
    timeIntervalUpper: real,
    stepPenalty: real,
    conflictPenalty: real,
    nmacPenalty: real,
    wallPenalty: real,
    goalReward: real)
}
