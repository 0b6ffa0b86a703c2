/** The data registered in `src/data/courseClassifications.ts`: the 336
    `reg` calls in file order, grouped by the file's own section headings,
    and the facts about the resulting map that the file's comments and
    tests rely on. */
module CourseRegistry {
  import opened Text
  import opened Common
  import opened CourseClassifications

  // ---------------------------------------------------------------------
  // BCS general degree
  // ---------------------------------------------------------------------

  /** Lines 47-53. */
  function BcsGeneralLevel1Semester1(): seq<Registration> {
    [
      Registration("CSC1122", Core, Theory),
      Registration("CSC1113", Core, Combined),
      Registration("CSC113\U{03b1}", Core, Combined),
      Registration("CSC1142", Core, Theory),
      Registration("CSC1153", Core, Practical),
      Registration("MAT112\U{03b4}", Core, Theory),
      Registration("MAT113\U{03b4}", Core, Theory)
    ]
  }

  /** Lines 56-63. */
  function BcsGeneralLevel1Semester2(): seq<Registration> {
    [
      Registration("CSC1213", Core, Combined),
      Registration("CSC1223", Core, Theory),
      Registration("CSC1233", Core, Theory),
      Registration("CSC1242", Core, Theory),
      Registration("CSC1251", Core, Practical),
      Registration("AMT112\U{03b2}", Core, Theory),
      Registration("MAT121\U{03b2}", Core, Theory),
      Registration("MAT122\U{03b2}", Core, Theory)
    ]
  }

  /** Lines 66-72. */
  function BcsGeneralLevel2Semester1(): seq<Registration> {
    [
      Registration("CSC2113", Core, Combined),
      Registration("CSC2123", Core, Combined),
      Registration("CSC2133", Core, Theory),
      Registration("CSC2143", Core, Combined),
      Registration("AMT212\U{03b2}", Core, Theory),
      Registration("MAT211\U{03b2}", Core, Theory),
      Registration("PHY2112", Core, Theory)
    ]
  }

  /** Lines 75-80. */
  function BcsGeneralLevel2Semester2(): seq<Registration> {
    [
      Registration("CSC2213", Core, Combined),
      Registration("CSC2222", Core, Theory),
      Registration("CSC2233", Core, Combined),
      Registration("CSC2242", Core, Theory),
      Registration("CSC2252", Core, Theory),
      Registration("MAT225\U{03b2}", Core, Theory)
    ]
  }

  /** Lines 82-84. */
  function BcsGeneralOptionals(): seq<Registration> {
    [
      Registration("CSC2262", Optional, Theory),
      Registration("CSC2263", Optional, Combined),
      Registration("CSC2272", Optional, Combined)
    ]
  }

  /** Lines 87-92. */
  function BcsGeneralLevel3Semester1(): seq<Registration> {
    [
      Registration("CSC3113", Core, Practical),
      Registration("CSC3122", Optional, Theory),
      Registration("CSC3132", Optional, Theory),
      Registration("CSC3142", Optional, Theory),
      Registration("CSC3152", Optional, Combined),
      Registration("MAT313\U{03b2}", Optional, Combined)
    ]
  }

  /** Lines 95-100. */
  function BcsGeneralLevel3Semester2(): seq<Registration> {
    [
      Registration("CSC3216", Core, Practical),
      Registration("CSC3222", Optional, Theory),
      Registration("CSC3232", Optional, Theory),
      Registration("CSC3242", Optional, Theory),
      Registration("CSC3252", Optional, Combined),
      Registration("CSC3172", Optional, Theory)
    ]
  }

  function BcsGeneral(): seq<Registration> {
    BcsGeneralLevel1Semester1() + BcsGeneralLevel1Semester2() + BcsGeneralLevel2Semester1() + BcsGeneralLevel2Semester2() + BcsGeneralOptionals() + BcsGeneralLevel3Semester1() + BcsGeneralLevel3Semester2()
  }

  // ---------------------------------------------------------------------
  // BCS honours degree
  // ---------------------------------------------------------------------

  /** Lines 105-111. */
  function BcsHonoursPart1(): seq<Registration> {
    [
      Registration("CSC4112", Core, Theory),
      Registration("CSC4122", Core, Theory),
      Registration("CSC4133", Core, Theory),
      Registration("CSC4046", Core, Project),
      Registration("CSC4152", Core, Theory),
      Registration("CSC4162", Core, Theory),
      Registration("CSC4172", Core, Theory)
    ]
  }

  /** Lines 112-117. */
  function BcsHonoursPart2(): seq<Registration> {
    [
      Registration("CSC4182", Core, Theory),
      Registration("CSC4212", Core, Theory),
      Registration("CSC4222", Core, Theory),
      Registration("CSC4232", Optional, Theory),
      Registration("CSC4242", Core, Theory),
      Registration("CSC4262", Optional, Theory)
    ]
  }

  function BcsHonours(): seq<Registration> {
    BcsHonoursPart1() + BcsHonoursPart2()
  }

  // ---------------------------------------------------------------------
  // Botany, B.Sc. general
  // ---------------------------------------------------------------------

  /** Lines 126-129. */
  function BotanyGeneralLevel1Semester1(): seq<Registration> {
    [
      Registration("BOT1112", Core, Theory),
      Registration("BOT1121", Core, Theory),
      Registration("BOT1131", Core, Theory),
      Registration("BOT1141", Core, Practical)
    ]
  }

  /** Lines 131-134. */
  function BotanyGeneralLevel1Semester2(): seq<Registration> {
    [
      Registration("BOT1212", Core, Theory),
      Registration("BOT1221", Core, Theory),
      Registration("BOT1231", Core, Theory),
      Registration("BOT1241", Core, Practical)
    ]
  }

  /** Lines 136-139. */
  function BotanyGeneralLevel2Semester1(): seq<Registration> {
    [
      Registration("BOT2112", Core, Theory),
      Registration("BOT2121", Core, Theory),
      Registration("BOT2131", Core, Theory),
      Registration("BOT2141", Core, Practical)
    ]
  }

  /** Lines 141-144. */
  function BotanyGeneralLevel2Semester2(): seq<Registration> {
    [
      Registration("BOT2212", Core, Theory),
      Registration("BOT2221", Core, Theory),
      Registration("BOT2231", Core, Theory),
      Registration("BOT2241", Core, Practical)
    ]
  }

  /** Lines 146-154. */
  function BotanyGeneralLevel3Semester1(): seq<Registration> {
    [
      Registration("BOT3112", Optional, Combined),
      Registration("BOT3122", Optional, Combined),
      Registration("BOT3132", Optional, Combined),
      Registration("BOT3142", Optional, Combined),
      Registration("BOT3151", Optional, Theory),
      Registration("BOT3162", Optional, Combined),
      Registration("BOT3172", Optional, Combined),
      Registration("BOT3182", Optional, Combined),
      Registration("BOT3191", Optional, Combined)
    ]
  }

  /** Lines 156-164. */
  function BotanyGeneralLevel3Semester2(): seq<Registration> {
    [
      Registration("BOT3212", Optional, Combined),
      Registration("BOT3222", Optional, Combined),
      Registration("BOT3232", Optional, Combined),
      Registration("BOT3242", Optional, Combined),
      Registration("BOT3251", Optional, Theory),
      Registration("BOT3261", Optional, Theory),
      Registration("BOT3271", Optional, Theory),
      Registration("BOT3282", Optional, Combined),
      Registration("BOT3292", Optional, Combined)
    ]
  }

  function BotanyGeneral(): seq<Registration> {
    BotanyGeneralLevel1Semester1() + BotanyGeneralLevel1Semester2() + BotanyGeneralLevel2Semester1() + BotanyGeneralLevel2Semester2() + BotanyGeneralLevel3Semester1() + BotanyGeneralLevel3Semester2()
  }

  // ---------------------------------------------------------------------
  // Botany, B.Sc. honours
  // ---------------------------------------------------------------------

  /** Lines 170-179. */
  function BotanyHonoursPart1(): seq<Registration> {
    [
      Registration("BOT4012", Core, Combined),
      Registration("BOT4022", Core, Combined),
      Registration("BOT4032", Core, Combined),
      Registration("BOT4042", Core, Theory),
      Registration("BOT4052", Core, Combined),
      Registration("BOT4062", Core, Combined),
      Registration("BOT4072", Core, Theory),
      Registration("BOT4082", Core, Combined),
      Registration("BOT4092", Core, Combined),
      Registration("BOT4102", Core, Combined)
    ]
  }

  /** Lines 180-189. */
  function BotanyHonoursPart2(): seq<Registration> {
    [
      Registration("BOT4112", Core, Combined),
      Registration("BOT4122", Core, Theory),
      Registration("BOT4132", Core, Combined),
      Registration("BOT4142", Core, Combined),
      Registration("BOT4152", Core, Combined),
      Registration("BOT4162", Core, Combined),
      Registration("BOT4172", Core, Combined),
      Registration("BOT4182", Core, Practical),
      Registration("BOT4192", Core, Combined),
      Registration("BOT4202", Core, Combined)
    ]
  }

  /** Lines 190-198. */
  function BotanyHonoursPart3(): seq<Registration> {
    [
      Registration("BOT4212", Core, Combined),
      Registration("BOT4222", Core, Combined),
      Registration("BOT4232", Core, Combined),
      Registration("BOT4242", Core, Combined),
      Registration("BOT4252", Core, Practical),
      Registration("BOT4262", Core, Combined),
      Registration("BOT4276", Core, Project),
      Registration("BOT4282", Core, Combined),
      Registration("BOT4292", Core, Practical)
    ]
  }

  function BotanyHonours(): seq<Registration> {
    BotanyHonoursPart1() + BotanyHonoursPart2() + BotanyHonoursPart3()
  }

  // ---------------------------------------------------------------------
  // Chemistry, B.Sc. general
  // ---------------------------------------------------------------------

  /** Lines 207-209. */
  function ChemistryGeneralLevel1Semester1(): seq<Registration> {
    [
      Registration("CHE1112", Core, Theory),
      Registration("CHE1122", Core, Theory),
      Registration("CHE1032", Core, Practical)
    ]
  }

  /** Lines 211-212. */
  function ChemistryGeneralLevel1Semester2(): seq<Registration> {
    [
      Registration("CHE1212", Core, Theory),
      Registration("CHE1222", Core, Theory)
    ]
  }

  /** Lines 214-216. */
  function ChemistryGeneralLevel2Semester1(): seq<Registration> {
    [
      Registration("CHE2112", Core, Theory),
      Registration("CHE2122", Core, Theory),
      Registration("CHE2131", Core, Practical)
    ]
  }

  /** Lines 218-220. */
  function ChemistryGeneralLevel2Semester2(): seq<Registration> {
    [
      Registration("CHE2212", Core, Theory),
      Registration("CHE2222", Core, Theory),
      Registration("CHE2231", Core, Practical)
    ]
  }

  /** Lines 222-224. */
  function ChemistryGeneralLevel3Semester1(): seq<Registration> {
    [
      Registration("CHE3112", Optional, Combined),
      Registration("CHE3122", Optional, Combined),
      Registration("CHE3132", Optional, Combined)
    ]
  }

  /** Lines 226-228. */
  function ChemistryGeneralLevel3Semester2(): seq<Registration> {
    [
      Registration("CHE3212", Optional, Combined),
      Registration("CHE3222", Optional, Combined),
      Registration("CHE3232", Optional, Theory)
    ]
  }

  function ChemistryGeneral(): seq<Registration> {
    ChemistryGeneralLevel1Semester1() + ChemistryGeneralLevel1Semester2() + ChemistryGeneralLevel2Semester1() + ChemistryGeneralLevel2Semester2() + ChemistryGeneralLevel3Semester1() + ChemistryGeneralLevel3Semester2()
  }

  // ---------------------------------------------------------------------
  // Chemistry, B.Sc. honours
  // ---------------------------------------------------------------------

  /** Lines 233-242. */
  function ChemistryHonoursPart1(): seq<Registration> {
    [
      Registration("CHE4012", Core, Theory),
      Registration("CHE4022", Core, Theory),
      Registration("CHE4032", Core, Theory),
      Registration("CHE4042", Core, Theory),
      Registration("CHE4052", Core, Theory),
      Registration("CHE4062", Core, Theory),
      Registration("CHE4072", Core, Theory),
      Registration("CHE4082", Core, Theory),
      Registration("CHE4092", Core, Theory),
      Registration("CHE4102", Core, Theory)
    ]
  }

  /** Lines 243-251. */
  function ChemistryHonoursPart2(): seq<Registration> {
    [
      Registration("CHE4112", Core, Theory),
      Registration("CHE4122", Core, Theory),
      Registration("CHE4132", Core, Practical),
      Registration("CHE4142", Core, Practical),
      Registration("CHE4152", Core, Practical),
      Registration("CHE4162", Core, Practical),
      Registration("CHE4172", Core, Combined),
      Registration("CHE4182", Core, Combined),
      Registration("CHE4046", Core, Project)
    ]
  }

  function ChemistryHonours(): seq<Registration> {
    ChemistryHonoursPart1() + ChemistryHonoursPart2()
  }

  // ---------------------------------------------------------------------
  // Computer Science (COM prefix)
  // ---------------------------------------------------------------------

  /** Lines 259-263. */
  function ComputerSciencePhysicalLevel1(): seq<Registration> {
    [
      Registration("COM1111", Core, Theory),
      Registration("COM112\U{03b2}", Core, Practical),
      Registration("COM113\U{03b1}", Core, Theory),
      Registration("COM121\U{03b2}", Core, Theory),
      Registration("COM122\U{03b2}", Core, Practical)
    ]
  }

  /** Lines 265-269. */
  function ComputerSciencePhysicalLevel2(): seq<Registration> {
    [
      Registration("COM212\U{03b2}", Core, Practical),
      Registration("COM213\U{03b1}", Core, Theory),
      Registration("COM2141", Core, Theory),
      Registration("COM221\U{03b2}", Core, Practical),
      Registration("COM222\U{03b2}", Core, Theory)
    ]
  }

  /** Lines 271-274. */
  function ComputerSciencePhysicalLevel3Semester1(): seq<Registration> {
    [
      Registration("COM311\U{03b2}", Core, Theory),
      Registration("COM312\U{03b2}", Optional, Combined),
      Registration("COM3b3\U{03b2}", Core, Practical),
      Registration("COM3b52", Optional, Combined)
    ]
  }

  /** Lines 276-280. */
  function ComputerSciencePhysicalLevel3Semester2(): seq<Registration> {
    [
      Registration("COM3252", Optional, Theory),
      Registration("COM3212", Optional, Theory),
      Registration("COM323\U{03b1}", Optional, Combined),
      Registration("COM324\U{03b1}", Optional, Combined),
      Registration("COM326\U{03b2}", Optional, Combined)
    ]
  }

  function ComputerSciencePhysical(): seq<Registration> {
    ComputerSciencePhysicalLevel1() + ComputerSciencePhysicalLevel2() + ComputerSciencePhysicalLevel3Semester1() + ComputerSciencePhysicalLevel3Semester2()
  }

  // ---------------------------------------------------------------------
  // Mathematics, B.Sc. general
  // ---------------------------------------------------------------------

  /** Lines 288-292. */
  function MathematicsGeneralLevel1(): seq<Registration> {
    [
      Registration("MAT111\U{03b2}", Core, Theory),
      Registration("MAT112\U{03b4}", Core, Theory),
      Registration("MAT113\U{03b4}", Core, Theory),
      Registration("MAT121\U{03b2}", Core, Theory),
      Registration("MAT122\U{03b2}", Core, Theory)
    ]
  }

  /** Lines 294-299. */
  function MathematicsGeneralLevel2(): seq<Registration> {
    [
      Registration("MAT211\U{03b2}", Core, Theory),
      Registration("MAT212\U{03b2}", Core, Theory),
      Registration("MAT221\U{03b2}", Core, Theory),
      Registration("MAT222\U{03b4}", Core, Theory),
      Registration("MAT224\U{03b4}", Core, Theory),
      Registration("MAT225\U{03b2}", Core, Theory)
    ]
  }

  /** Lines 301-303. */
  function MathematicsGeneralLevel3Semester1(): seq<Registration> {
    [
      Registration("MAT311\U{03b2}", Core, Theory),
      Registration("MAT312\U{03b2}", Core, Theory),
      Registration("MAT313\U{03b2}", Core, Theory)
    ]
  }

  /** Lines 305-310. */
  function MathematicsGeneralLevel3Semester2(): seq<Registration> {
    [
      Registration("MAT321\U{03b2}", Optional, Theory),
      Registration("MAT322\U{03b2}", Optional, Theory),
      Registration("MAT323\U{03b2}", Optional, Theory),
      Registration("MAT324\U{03b2}", Optional, Theory),
      Registration("MAT325\U{03b2}", Optional, Theory),
      Registration("MAT326\U{03b2}", Optional, Theory)
    ]
  }

  /** Line 313. */
  function MathematicsGeneralBioStream(): seq<Registration> {
    [
      Registration("MAT1142", Core, Theory)
    ]
  }

  function MathematicsGeneral(): seq<Registration> {
    MathematicsGeneralLevel1() + MathematicsGeneralLevel2() + MathematicsGeneralLevel3Semester1() + MathematicsGeneralLevel3Semester2() + MathematicsGeneralBioStream()
  }

  // ---------------------------------------------------------------------
  // Industrial Mathematics (IMT)
  // ---------------------------------------------------------------------

  /** Lines 318-329. */
  function IndustrialMathematicsMain(): seq<Registration> {
    [
      Registration("IMT111\U{03b2}", Core, Theory),
      Registration("IMT121\U{03b2}", Core, Theory),
      Registration("IMT122\U{03b2}", Core, Theory),
      Registration("IMT1b2\U{03b2}", Core, Project),
      Registration("IMT211\U{03b2}", Core, Theory),
      Registration("IMT2b2\U{03b2}", Core, Project),
      Registration("IMT221\U{03b2}", Core, Theory),
      Registration("IMT223\U{03b2}", Core, Theory),
      Registration("IMT224\U{03b2}", Core, Theory),
      Registration("IMT3b1\U{03b2}", Core, Project),
      Registration("IMT312\U{03b2}", Core, Theory),
      Registration("IMT313\U{03b2}", Core, Theory)
    ]
  }

  /** Lines 331-334. */
  function IndustrialMathematicsSemester2Optional(): seq<Registration> {
    [
      Registration("IMT321\U{03b2}", Optional, Theory),
      Registration("IMT322\U{03b2}", Optional, Theory),
      Registration("IMT323\U{03b2}", Optional, Theory),
      Registration("IMT324\U{03b2}", Optional, Theory)
    ]
  }

  function IndustrialMathematics(): seq<Registration> {
    IndustrialMathematicsMain() + IndustrialMathematicsSemester2Optional()
  }

  // ---------------------------------------------------------------------
  // Applied Mathematics (AMT)
  // ---------------------------------------------------------------------

  /** Lines 339-345. */
  function AppliedMathematicsPart1(): seq<Registration> {
    [
      Registration("AMT111\U{03b2}", Core, Theory),
      Registration("AMT112\U{03b2}", Core, Theory),
      Registration("AMT121\U{03b2}", Core, Theory),
      Registration("AMT122\U{03b2}", Core, Theory),
      Registration("AMT211\U{03b2}", Core, Theory),
      Registration("AMT212\U{03b2}", Core, Theory),
      Registration("AMT221\U{03b2}", Core, Theory)
    ]
  }

  /** Lines 346-351. */
  function AppliedMathematicsPart2(): seq<Registration> {
    [
      Registration("AMT223\U{03b2}", Core, Theory),
      Registration("AMT224\U{03b2}", Core, Theory),
      Registration("AMT311\U{03b2}", Core, Theory),
      Registration("AMT312\U{03b2}", Core, Theory),
      Registration("AMT313\U{03b2}", Core, Theory),
      Registration("AMT314\U{03b2}", Core, Theory)
    ]
  }

  /** Lines 353-356. */
  function AppliedMathematicsSemester2Optional(): seq<Registration> {
    [
      Registration("AMT321\U{03b2}", Optional, Theory),
      Registration("AMT322\U{03b2}", Optional, Theory),
      Registration("AMT323\U{03b2}", Optional, Theory),
      Registration("AMT324\U{03b2}", Optional, Theory)
    ]
  }

  function AppliedMathematics(): seq<Registration> {
    AppliedMathematicsPart1() + AppliedMathematicsPart2() + AppliedMathematicsSemester2Optional()
  }

  // ---------------------------------------------------------------------
  // Mathematics, B.Sc. honours
  // ---------------------------------------------------------------------

  /** Lines 361-371. */
  function MathematicsHonoursMat(): seq<Registration> {
    [
      Registration("MAT411\U{03b2}", Core, Theory),
      Registration("MAT412\U{03b2}", Core, Theory),
      Registration("MAT413\U{03b2}", Core, Theory),
      Registration("MAT414\U{03b2}", Core, Theory),
      Registration("MAT415\U{03b2}", Core, Theory),
      Registration("MAT421\U{03b2}", Core, Theory),
      Registration("MAT422\U{03b2}", Core, Theory),
      Registration("MAT423\U{03b2}", Core, Theory),
      Registration("MAT424\U{03b2}", Core, Theory),
      Registration("MAT425\U{03b2}", Core, Theory),
      Registration("MAT4b6\U{03b2}", Core, Project)
    ]
  }

  /** Lines 372-378. */
  function MathematicsHonoursAmt(): seq<Registration> {
    [
      Registration("AMT411\U{03b2}", Core, Theory),
      Registration("AMT412\U{03b2}", Core, Theory),
      Registration("AMT413\U{03b2}", Core, Theory),
      Registration("AMT421\U{03b2}", Core, Theory),
      Registration("AMT422\U{03b2}", Core, Theory),
      Registration("AMT423\U{03b2}", Core, Theory),
      Registration("AMT4b6\U{03b2}", Core, Project)
    ]
  }

  function MathematicsHonours(): seq<Registration> {
    MathematicsHonoursMat() + MathematicsHonoursAmt()
  }

  // ---------------------------------------------------------------------
  // Physics, B.Sc. general
  // ---------------------------------------------------------------------

  /** Lines 386-388. */
  function PhysicsGeneralLevel1(): seq<Registration> {
    [
      Registration("PHY1114", Core, Theory),
      Registration("PHY1b22", Core, Practical),
      Registration("PHY1214", Core, Theory)
    ]
  }

  /** Lines 390-393. */
  function PhysicsGeneralLevel2(): seq<Registration> {
    [
      Registration("PHY2114", Core, Theory),
      Registration("PHY2b22", Core, Practical),
      Registration("PHY2214", Core, Theory),
      Registration("PHY2222", Optional, Practical)
    ]
  }

  /** Lines 395-396. */
  function PhysicsGeneralLevel3Semester1(): seq<Registration> {
    [
      Registration("PHY3114", Core, Theory),
      Registration("PHY3121", Core, Practical)
    ]
  }

  /** Lines 398-403. */
  function PhysicsGeneralLevel3Semester2(): seq<Registration> {
    [
      Registration("PHY3232", Optional, Theory),
      Registration("PHY3242", Optional, Combined),
      Registration("PHY3252", Optional, Theory),
      Registration("PHY3262", Optional, Theory),
      Registration("PHY3272", Optional, Combined),
      Registration("PHY3282", Optional, Combined)
    ]
  }

  function PhysicsGeneral(): seq<Registration> {
    PhysicsGeneralLevel1() + PhysicsGeneralLevel2() + PhysicsGeneralLevel3Semester1() + PhysicsGeneralLevel3Semester2()
  }

  // ---------------------------------------------------------------------
  // Physics, B.Sc. honours
  // ---------------------------------------------------------------------

  /** Lines 408-414. */
  function PhysicsHonoursPart1(): seq<Registration> {
    [
      Registration("PHY4112", Core, Theory),
      Registration("PHY4122", Core, Theory),
      Registration("PHY4132", Core, Theory),
      Registration("PHY4142", Core, Theory),
      Registration("PHY4152", Core, Theory),
      Registration("PHY4162", Core, Practical),
      Registration("PHY4172", Core, Theory)
    ]
  }

  /** Lines 415-421. */
  function PhysicsHonoursPart2(): seq<Registration> {
    [
      Registration("PHY4182", Core, Theory),
      Registration("PHY4192", Core, Theory),
      Registration("PHY4202", Core, Combined),
      Registration("PHY4212", Core, Theory),
      Registration("PHY4222", Core, Theory),
      Registration("PHY4232", Core, Practical),
      Registration("PHY4046", Core, Project)
    ]
  }

  function PhysicsHonours(): seq<Registration> {
    PhysicsHonoursPart1() + PhysicsHonoursPart2()
  }

  // ---------------------------------------------------------------------
  // Zoology, B.Sc. general
  // ---------------------------------------------------------------------

  /** Lines 429-431. */
  function ZoologyGeneralLevel1Semester1(): seq<Registration> {
    [
      Registration("ZOO1102", Core, Theory),
      Registration("ZOO1112", Core, Theory),
      Registration("ZOO1121", Core, Practical)
    ]
  }

  /** Lines 433-435. */
  function ZoologyGeneralLevel1Semester2(): seq<Registration> {
    [
      Registration("ZOO1202", Core, Theory),
      Registration("ZOO1212", Core, Theory),
      Registration("ZOO1221", Core, Practical)
    ]
  }

  /** Lines 437-439. */
  function ZoologyGeneralLevel2Semester1(): seq<Registration> {
    [
      Registration("ZOO2102", Core, Theory),
      Registration("ZOO2112", Core, Theory),
      Registration("ZOO2121", Core, Practical)
    ]
  }

  /** Lines 441-443. */
  function ZoologyGeneralLevel2Semester2(): seq<Registration> {
    [
      Registration("ZOO2202", Core, Theory),
      Registration("ZOO2212", Core, Theory),
      Registration("ZOO2221", Core, Practical)
    ]
  }

  /** Lines 445-448. */
  function ZoologyGeneralLevel2Optional(): seq<Registration> {
    [
      Registration("ZOO2232", Optional, Combined),
      Registration("ZOO2142", Optional, Combined),
      Registration("ZOO2152", Optional, Combined),
      Registration("ZOO2262", Optional, Combined)
    ]
  }

  /** Lines 450-457. */
  function ZoologyGeneralLevel3Semester1(): seq<Registration> {
    [
      Registration("ZOO3112", Optional, Combined),
      Registration("ZOO3122", Optional, Combined),
      Registration("ZOO3133", Optional, Combined),
      Registration("ZOO3152", Optional, Combined),
      Registration("ZOO3162", Optional, Combined),
      Registration("ZOO3172", Optional, Combined),
      Registration("ZOO3182", Optional, Combined),
      Registration("ZOO3192", Optional, Combined)
    ]
  }

  /** Lines 459-465. */
  function ZoologyGeneralLevel3Semester2(): seq<Registration> {
    [
      Registration("ZOO3202", Optional, Combined),
      Registration("ZOO3211", Optional, Theory),
      Registration("ZOO3223", Optional, Combined),
      Registration("ZOO3232", Optional, Combined),
      Registration("ZOO3252", Optional, Combined),
      Registration("ZOO3272", Optional, Combined),
      Registration("ZOO3292", Optional, Combined)
    ]
  }

  function ZoologyGeneral(): seq<Registration> {
    ZoologyGeneralLevel1Semester1() + ZoologyGeneralLevel1Semester2() + ZoologyGeneralLevel2Semester1() + ZoologyGeneralLevel2Semester2() + ZoologyGeneralLevel2Optional() + ZoologyGeneralLevel3Semester1() + ZoologyGeneralLevel3Semester2()
  }

  // ---------------------------------------------------------------------
  // Zoology, B.Sc. honours
  // ---------------------------------------------------------------------

  /** Lines 470-476. */
  function ZoologyHonoursPart1(): seq<Registration> {
    [
      Registration("ZOO4012", Core, Combined),
      Registration("ZOO4022", Core, Combined),
      Registration("ZOO4032", Core, Combined),
      Registration("ZOO4042", Core, Combined),
      Registration("ZOO4052", Core, Combined),
      Registration("ZOO4062", Core, Combined),
      Registration("ZOO4072", Core, Combined)
    ]
  }

  /** Lines 477-483. */
  function ZoologyHonoursPart2(): seq<Registration> {
    [
      Registration("ZOO4082", Core, Combined),
      Registration("ZOO4092", Core, Combined),
      Registration("ZOO4102", Core, Combined),
      Registration("ZOO4112", Core, Practical),
      Registration("ZOO4122", Core, Practical),
      Registration("ZOO4132", Core, Combined),
      Registration("ZOO4046", Core, Project)
    ]
  }

  function ZoologyHonours(): seq<Registration> {
    ZoologyHonoursPart1() + ZoologyHonoursPart2()
  }

  // ---------------------------------------------------------------------
  // ICT courses
  // ---------------------------------------------------------------------

  /** Lines 488-489. */
  function Ict(): seq<Registration> {
    [
      Registration("ICT1b13", Core, Combined),
      Registration("ICT2b13", Optional, Combined)
    ]
  }

  // ---------------------------------------------------------------------
  // FSC courses
  // ---------------------------------------------------------------------

  /** Lines 494-504. */
  function Fsc(): seq<Registration> {
    [
      Registration("FSC115\U{03b1}", Optional, Practical),
      Registration("FSC215\U{03b1}", Optional, Practical),
      Registration("FSC224\U{03b1}", Optional, Combined),
      Registration("FSC225\U{03b1}", Optional, Combined),
      Registration("FSC3112", Optional, Theory),
      Registration("FSC3122", Optional, Theory),
      Registration("FSC3132", Optional, Combined),
      Registration("FSC3bP2", Optional, Practical),
      Registration("FSC3212", Optional, Theory),
      Registration("FSC3222", Optional, Combined),
      Registration("FSC3232", Optional, Theory)
    ]
  }

  // ---------------------------------------------------------------------
  // English courses
  // ---------------------------------------------------------------------

  /** Lines 509-511. */
  function English(): seq<Registration> {
    [
      Registration("ENG1b10", Core, Theory),
      Registration("ENG2b10", Core, Theory),
      Registration("ENG3b10", Core, Theory)
    ]
  }

  // ---------------------------------------------------------------------
  // The whole registry
  // ---------------------------------------------------------------------

  /** The sections in file order. */
  function Sections(): seq<seq<Registration>> {
    [
      BcsGeneral(),
      BcsHonours(),
      BotanyGeneral(),
      BotanyHonours(),
      ChemistryGeneral(),
      ChemistryHonours(),
      ComputerSciencePhysical(),
      MathematicsGeneral(),
      IndustrialMathematics(),
      AppliedMathematics(),
      MathematicsHonours(),
      PhysicsGeneral(),
      PhysicsHonours(),
      ZoologyGeneral(),
      ZoologyHonours(),
      Ict(),
      Fsc(),
      English()
    ]
  }

  /** Concatenation of the sections, in order. */
  function Flatten(ss: seq<seq<Registration>>): seq<Registration> {
    if ss == [] then [] else Flatten(ss[..|ss| - 1]) + ss[|ss| - 1]
  }

  /** Every `reg` call of the file, in file order. */
  function Registrations(): seq<Registration> {
    Flatten(Sections())
  }

  /** The contents of `COURSE_MAP` once the module has loaded. */
  function CourseMapContents(): map<string, Classification> {
    Registered(Registrations())
  }

  // ---------------------------------------------------------------------
  // Structural helpers
  // ---------------------------------------------------------------------

  lemma {:induction false} FlattenSplit(ss: seq<seq<Registration>>, n: nat)
    requires n <= |ss|
    ensures Flatten(ss) == Flatten(ss[..n]) + Flatten(ss[n..])
    decreases |ss|
  {
    if n == |ss| {
      assert ss[..n] == ss;
      assert ss[n..] == [];
    } else {
      var init := ss[..|ss| - 1];
      FlattenSplit(init, n);
      assert init[..n] == ss[..n];
      assert ss[n..][..|ss[n..]| - 1] == init[n..];
    }
  }

  lemma {:induction false} FlattenMember(ss: seq<seq<Registration>>, i: nat, r: Registration)
    requires i < |ss| && r in ss[i]
    ensures r in Flatten(ss)
  {
    if i < |ss| - 1 {
      FlattenMember(ss[..|ss| - 1], i, r);
    }
  }

  lemma {:induction false} FlattenAvoids(ss: seq<seq<Registration>>, key: string)
    requires forall s, r | s in ss && r in s :: Normalize(r.code) != key
    ensures forall r | r in Flatten(ss) :: Normalize(r.code) != key
  {
    if ss != [] {
      FlattenAvoids(ss[..|ss| - 1], key);
    }
  }

  /** A key registered in section `n` and in no later section keeps the
      classification section `n` gave it. */
  lemma LastSectionWins(ss: seq<seq<Registration>>, n: nat, key: string)
    requires n < |ss|
    requires key in Registered(ss[n])
    requires forall r | r in Flatten(ss[n + 1..]) :: Normalize(r.code) != key
    ensures key in Registered(Flatten(ss))
    ensures Registered(Flatten(ss))[key] == Registered(ss[n])[key]
  {
    FlattenSplit(ss, n + 1);
    var init := ss[..n + 1];
    assert init[..n] == ss[..n] && init[n] == ss[n];
    var before := Flatten(ss[..n]);
    assert Flatten(init) == before + ss[n];
    RegisteredSuffixWins(before, ss[n], key);
    RegisteredAppendAbsent(before + ss[n], Flatten(ss[n + 1..]), key);
  }

  /** A section whose codes all start with the ASCII prefix `p` registers
      no key that differs from `p` lower-cased at position `at`. */
  lemma SectionAvoids(section: seq<Registration>, p: string, key: string, at: nat)
    requires forall i | 0 <= i < |section| :: StartsWith(section[i].code, p)
    requires forall i :: 0 <= i < |p| ==> IsAsciiLetter(p[i]) || IsDigit(p[i])
    requires at < |p| && at < |key| && key[at] != LowerChar(p[at])
    ensures forall r | r in section :: Normalize(r.code) != key
  {
    forall r | r in section
      ensures Normalize(r.code) != key
    {
      NotKeyByPrefix(r.code, p, key, at);
    }
  }

  // ---------------------------------------------------------------------
  // Facts about the registered data
  // ---------------------------------------------------------------------

  /** Where the sections sit in the list. */
  lemma SectionsLayout()
    ensures |Sections()| == 18
    ensures Sections()[0] == BcsGeneral()
    ensures Sections()[7] == MathematicsGeneral()
    ensures Sections()[8..] == LaterSections()
  {
  }

  lemma MathematicsGeneralLevel3Semester2AvoidsMat313b()
    ensures forall r | r in MathematicsGeneralLevel3Semester2() :: Normalize(r.code) != "mat313b"
  {
    SectionAvoids(MathematicsGeneralLevel3Semester2(), "MAT32", "mat313b", 4);
  }

  lemma MathematicsGeneralBioStreamAvoidsMat313b()
    ensures forall r | r in MathematicsGeneralBioStream() :: Normalize(r.code) != "mat313b"
  {
    SectionAvoids(MathematicsGeneralBioStream(), "MAT1", "mat313b", 3);
  }

  lemma IndustrialMathematicsMainAvoidsMat313b()
    ensures forall r | r in IndustrialMathematicsMain() :: Normalize(r.code) != "mat313b"
  {
    SectionAvoids(IndustrialMathematicsMain(), "IMT", "mat313b", 0);
  }

  lemma IndustrialMathematicsSemester2OptionalAvoidsMat313b()
    ensures forall r | r in IndustrialMathematicsSemester2Optional() :: Normalize(r.code) != "mat313b"
  {
    SectionAvoids(IndustrialMathematicsSemester2Optional(), "IMT", "mat313b", 0);
  }

  lemma AppliedMathematicsPart1AvoidsMat313b()
    ensures forall r | r in AppliedMathematicsPart1() :: Normalize(r.code) != "mat313b"
  {
    SectionAvoids(AppliedMathematicsPart1(), "AMT", "mat313b", 0);
  }

  lemma AppliedMathematicsPart2AvoidsMat313b()
    ensures forall r | r in AppliedMathematicsPart2() :: Normalize(r.code) != "mat313b"
  {
    SectionAvoids(AppliedMathematicsPart2(), "AMT", "mat313b", 0);
  }

  lemma AppliedMathematicsSemester2OptionalAvoidsMat313b()
    ensures forall r | r in AppliedMathematicsSemester2Optional() :: Normalize(r.code) != "mat313b"
  {
    SectionAvoids(AppliedMathematicsSemester2Optional(), "AMT", "mat313b", 0);
  }

  lemma MathematicsHonoursMatAvoidsMat313b()
    ensures forall r | r in MathematicsHonoursMat() :: Normalize(r.code) != "mat313b"
  {
    SectionAvoids(MathematicsHonoursMat(), "MAT4", "mat313b", 3);
  }

  lemma MathematicsHonoursAmtAvoidsMat313b()
    ensures forall r | r in MathematicsHonoursAmt() :: Normalize(r.code) != "mat313b"
  {
    SectionAvoids(MathematicsHonoursAmt(), "AMT", "mat313b", 0);
  }

  lemma PhysicsGeneralLevel1AvoidsMat313b()
    ensures forall r | r in PhysicsGeneralLevel1() :: Normalize(r.code) != "mat313b"
  {
    SectionAvoids(PhysicsGeneralLevel1(), "PHY", "mat313b", 0);
  }

  lemma PhysicsGeneralLevel2AvoidsMat313b()
    ensures forall r | r in PhysicsGeneralLevel2() :: Normalize(r.code) != "mat313b"
  {
    SectionAvoids(PhysicsGeneralLevel2(), "PHY", "mat313b", 0);
  }

  lemma PhysicsGeneralLevel3Semester1AvoidsMat313b()
    ensures forall r | r in PhysicsGeneralLevel3Semester1() :: Normalize(r.code) != "mat313b"
  {
    SectionAvoids(PhysicsGeneralLevel3Semester1(), "PHY", "mat313b", 0);
  }

  lemma PhysicsGeneralLevel3Semester2AvoidsMat313b()
    ensures forall r | r in PhysicsGeneralLevel3Semester2() :: Normalize(r.code) != "mat313b"
  {
    SectionAvoids(PhysicsGeneralLevel3Semester2(), "PHY", "mat313b", 0);
  }

  lemma PhysicsHonoursPart1AvoidsMat313b()
    ensures forall r | r in PhysicsHonoursPart1() :: Normalize(r.code) != "mat313b"
  {
    SectionAvoids(PhysicsHonoursPart1(), "PHY", "mat313b", 0);
  }

  lemma PhysicsHonoursPart2AvoidsMat313b()
    ensures forall r | r in PhysicsHonoursPart2() :: Normalize(r.code) != "mat313b"
  {
    SectionAvoids(PhysicsHonoursPart2(), "PHY", "mat313b", 0);
  }

  lemma ZoologyGeneralLevel1Semester1AvoidsMat313b()
    ensures forall r | r in ZoologyGeneralLevel1Semester1() :: Normalize(r.code) != "mat313b"
  {
    SectionAvoids(ZoologyGeneralLevel1Semester1(), "ZOO", "mat313b", 0);
  }

  lemma ZoologyGeneralLevel1Semester2AvoidsMat313b()
    ensures forall r | r in ZoologyGeneralLevel1Semester2() :: Normalize(r.code) != "mat313b"
  {
    SectionAvoids(ZoologyGeneralLevel1Semester2(), "ZOO", "mat313b", 0);
  }

  lemma ZoologyGeneralLevel2Semester1AvoidsMat313b()
    ensures forall r | r in ZoologyGeneralLevel2Semester1() :: Normalize(r.code) != "mat313b"
  {
    SectionAvoids(ZoologyGeneralLevel2Semester1(), "ZOO", "mat313b", 0);
  }

  lemma ZoologyGeneralLevel2Semester2AvoidsMat313b()
    ensures forall r | r in ZoologyGeneralLevel2Semester2() :: Normalize(r.code) != "mat313b"
  {
    SectionAvoids(ZoologyGeneralLevel2Semester2(), "ZOO", "mat313b", 0);
  }

  lemma ZoologyGeneralLevel2OptionalAvoidsMat313b()
    ensures forall r | r in ZoologyGeneralLevel2Optional() :: Normalize(r.code) != "mat313b"
  {
    SectionAvoids(ZoologyGeneralLevel2Optional(), "ZOO", "mat313b", 0);
  }

  lemma ZoologyGeneralLevel3Semester1AvoidsMat313b()
    ensures forall r | r in ZoologyGeneralLevel3Semester1() :: Normalize(r.code) != "mat313b"
  {
    SectionAvoids(ZoologyGeneralLevel3Semester1(), "ZOO", "mat313b", 0);
  }

  lemma ZoologyGeneralLevel3Semester2AvoidsMat313b()
    ensures forall r | r in ZoologyGeneralLevel3Semester2() :: Normalize(r.code) != "mat313b"
  {
    SectionAvoids(ZoologyGeneralLevel3Semester2(), "ZOO", "mat313b", 0);
  }

  lemma ZoologyHonoursPart1AvoidsMat313b()
    ensures forall r | r in ZoologyHonoursPart1() :: Normalize(r.code) != "mat313b"
  {
    SectionAvoids(ZoologyHonoursPart1(), "ZOO", "mat313b", 0);
  }

  lemma ZoologyHonoursPart2AvoidsMat313b()
    ensures forall r | r in ZoologyHonoursPart2() :: Normalize(r.code) != "mat313b"
  {
    SectionAvoids(ZoologyHonoursPart2(), "ZOO", "mat313b", 0);
  }

  lemma IctAvoidsMat313b()
    ensures forall r | r in Ict() :: Normalize(r.code) != "mat313b"
  {
    SectionAvoids(Ict(), "ICT", "mat313b", 0);
  }

  lemma FscAvoidsMat313b()
    ensures forall r | r in Fsc() :: Normalize(r.code) != "mat313b"
  {
    SectionAvoids(Fsc(), "FSC", "mat313b", 0);
  }

  lemma EnglishAvoidsMat313b()
    ensures forall r | r in English() :: Normalize(r.code) != "mat313b"
  {
    SectionAvoids(English(), "ENG", "mat313b", 0);
  }

  lemma IndustrialMathematicsAvoidsMat313b()
    ensures forall r | r in IndustrialMathematics() :: Normalize(r.code) != "mat313b"
  {
    IndustrialMathematicsMainAvoidsMat313b();
    IndustrialMathematicsSemester2OptionalAvoidsMat313b();
  }

  lemma AppliedMathematicsAvoidsMat313b()
    ensures forall r | r in AppliedMathematics() :: Normalize(r.code) != "mat313b"
  {
    AppliedMathematicsPart1AvoidsMat313b();
    AppliedMathematicsPart2AvoidsMat313b();
    AppliedMathematicsSemester2OptionalAvoidsMat313b();
  }

  lemma MathematicsHonoursAvoidsMat313b()
    ensures forall r | r in MathematicsHonours() :: Normalize(r.code) != "mat313b"
  {
    MathematicsHonoursMatAvoidsMat313b();
    MathematicsHonoursAmtAvoidsMat313b();
  }

  lemma PhysicsGeneralAvoidsMat313b()
    ensures forall r | r in PhysicsGeneral() :: Normalize(r.code) != "mat313b"
  {
    PhysicsGeneralLevel1AvoidsMat313b();
    PhysicsGeneralLevel2AvoidsMat313b();
    PhysicsGeneralLevel3Semester1AvoidsMat313b();
    PhysicsGeneralLevel3Semester2AvoidsMat313b();
  }

  lemma PhysicsHonoursAvoidsMat313b()
    ensures forall r | r in PhysicsHonours() :: Normalize(r.code) != "mat313b"
  {
    PhysicsHonoursPart1AvoidsMat313b();
    PhysicsHonoursPart2AvoidsMat313b();
  }

  lemma ZoologyGeneralAvoidsMat313b()
    ensures forall r | r in ZoologyGeneral() :: Normalize(r.code) != "mat313b"
  {
    ZoologyGeneralLevel1Semester1AvoidsMat313b();
    ZoologyGeneralLevel1Semester2AvoidsMat313b();
    ZoologyGeneralLevel2Semester1AvoidsMat313b();
    ZoologyGeneralLevel2Semester2AvoidsMat313b();
    ZoologyGeneralLevel2OptionalAvoidsMat313b();
    ZoologyGeneralLevel3Semester1AvoidsMat313b();
    ZoologyGeneralLevel3Semester2AvoidsMat313b();
  }

  lemma ZoologyHonoursAvoidsMat313b()
    ensures forall r | r in ZoologyHonours() :: Normalize(r.code) != "mat313b"
  {
    ZoologyHonoursPart1AvoidsMat313b();
    ZoologyHonoursPart2AvoidsMat313b();
  }

  /** The sections that follow the Mathematics general block. */
  function LaterSections(): seq<seq<Registration>> {
    [IndustrialMathematics(), AppliedMathematics(), MathematicsHonours(), PhysicsGeneral(), PhysicsHonours(), ZoologyGeneral(), ZoologyHonours(), Ict(), Fsc(), English()]
  }

  /** None of them registers MAT313β. */
  lemma LaterSectionsAvoidMat313b()
    ensures forall s, r | s in LaterSections() && r in s :: Normalize(r.code) != "mat313b"
  {
    forall s, r | s in LaterSections() && r in s
      ensures Normalize(r.code) != "mat313b"
    {
      if s == IndustrialMathematics() {
        IndustrialMathematicsAvoidsMat313b();
      } else if s == AppliedMathematics() {
        AppliedMathematicsAvoidsMat313b();
      } else if s == MathematicsHonours() {
        MathematicsHonoursAvoidsMat313b();
      } else if s == PhysicsGeneral() {
        PhysicsGeneralAvoidsMat313b();
      } else if s == PhysicsHonours() {
        PhysicsHonoursAvoidsMat313b();
      } else if s == ZoologyGeneral() {
        ZoologyGeneralAvoidsMat313b();
      } else if s == ZoologyHonours() {
        ZoologyHonoursAvoidsMat313b();
      } else if s == Ict() {
        IctAvoidsMat313b();
      } else if s == Fsc() {
        FscAvoidsMat313b();
      } else {
        assert s == English();
        EnglishAvoidsMat313b();
      }
    }
  }

  /** Within the Mathematics general block, the last registration of
      MAT313β is the core/theory one of Level 3 Semester 1. */
  lemma MathematicsGeneralMat313b()
    ensures "mat313b" in Registered(MathematicsGeneral())
    ensures Registered(MathematicsGeneral())["mat313b"] == Classification(Core, Theory)
  {
    var upTo := MathematicsGeneralLevel1() + MathematicsGeneralLevel2() + MathematicsGeneralLevel3Semester1();
    assert upTo[|upTo| - 1] == Registration("MAT313\U{03b2}", Core, Theory);
    Mat313bGreekKey();
    LastRegistrationWins(upTo, |upTo| - 1);
    MathematicsGeneralLevel3Semester2AvoidsMat313b();
    MathematicsGeneralBioStreamAvoidsMat313b();
    RegisteredAppendAbsent(upTo, MathematicsGeneralLevel3Semester2(), "mat313b");
    RegisteredAppendAbsent(upTo + MathematicsGeneralLevel3Semester2(), MathematicsGeneralBioStream(), "mat313b");
  }

  /** The `reg` calls after the Mathematics general block leave MAT313β alone. */
  lemma TailAvoidsMat313b()
    ensures forall r | r in Flatten(Sections()[8..]) :: Normalize(r.code) != "mat313b"
  {
    SectionsLayout();
    LaterSectionsAvoidMat313b();
    FlattenAvoids(Sections()[8..], "mat313b");
  }

  /** Last write wins on the real data: MAT313β is registered optional and
      combined in the BCS block and core and theory in the Mathematics
      block; the later call decides. */
  lemma Mat313bResolvesToCoreTheory()
    ensures GetCourseClassification(CourseMapContents(), "MAT313\U{03b2}") == Some(Classification(Core, Theory))
    ensures IsCoreCourse(CourseMapContents(), "MAT313\U{03b2}") && IsTheoryCourse(CourseMapContents(), "MAT313\U{03b2}")
    ensures !IsOptionalCourse(CourseMapContents(), "MAT313\U{03b2}") && !IsCombinedCourse(CourseMapContents(), "MAT313\U{03b2}")
  {
    Mat313bGreekKey();
    SectionsLayout();
    TailAvoidsMat313b();
    MathematicsGeneralMat313b();
    LastSectionWins(Sections(), 7, "mat313b");
  }

  /** `TOTAL_CLASSIFIED_COURSES` is the number of distinct keys, and it is
      below the number of `reg` calls, since MAT313β is registered twice. */
  lemma TotalBelowRegistrations()
    ensures TotalClassifiedCourses(CourseMapContents()) == |set r | r in Registrations() :: Normalize(r.code)|
    ensures TotalClassifiedCourses(CourseMapContents()) < |Registrations()|
  {
    RegisteredKeys(Registrations());
    SectionsLayout();
    var x := Registration("MAT313\U{03b2}", Optional, Combined);
    var y := Registration("MAT313\U{03b2}", Core, Theory);
    assert x in BcsGeneralLevel3Semester1();
    assert x in BcsGeneral();
    assert y in MathematicsGeneralLevel3Semester1();
    assert y in MathematicsGeneral();
    FlattenMember(Sections(), 0, x);
    FlattenMember(Sections(), 7, y);
    RegisteredSizeBelowCallsOnClash(Registrations(), x, y);
  }
}
